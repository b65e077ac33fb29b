/**
 * What a trip card derives from a trip: the image source, the alt text, the
 * start date as shown, and the admin's edit link.
 */
module TripCard {
  import opened Wrappers
  import opened Text
  import Middleware

  const Placeholder := "placeholder.jpg"
  const ImageDir := "/images/"
  const EditPrefix := "/admin/edit-trip/"

  /**
   * The `src` of the card's image: an image that starts with `http` is used
   * as it is; any other non-empty image is looked up under `/images/`; no
   * image, or an empty one, shows the placeholder.
   */
  function ImageSrc(image: Option<string>): (src: string)
    ensures image.Some? && StartsWith(image.value, "http") ==> src == image.value
    ensures image.Some? && image.value != "" && !StartsWith(image.value, "http") ==> src == ImageDir + image.value
    ensures !Truthy(image) ==> src == ImageDir + Placeholder
  {
    if image.Some? && StartsWith(image.value, "http") then image.value
    else ImageDir + (if Truthy(image) then image.value else Placeholder)
  }

  /** Every image source is either absolute (`http…`) or a file under `/images/`. */
  lemma ImageSrcShape(image: Option<string>)
    ensures StartsWith(ImageSrc(image), "http") || StartsWith(ImageSrc(image), ImageDir)
  {
    var src := ImageSrc(image);
    if !(image.Some? && StartsWith(image.value, "http")) {
      assert src[..|ImageDir|] == ImageDir;
    }
  }

  /**
   * The test is a plain prefix: a file name such as `httpd.png` is taken for
   * an address and not looked up under `/images/`.
   */
  lemma ImageSrcPrefixExample()
    ensures ImageSrc(Some("httpd.png")) == "httpd.png"
  {
    assert "httpd.png"[..4] == "http";
  }

  /** A plain file name is looked up under `/images/`. */
  lemma ImageSrcLocalExample()
    ensures ImageSrc(Some("reef1.jpg")) == "/images/reef1.jpg"
  {
    assert "reef1.jpg"[0] != "http"[0];
  }

  /** The image's alt text: the trip's name, or `Trip image` when it has none. */
  function AltText(name: Option<string>): (alt: string)
    ensures alt != ""
    ensures Truthy(name) ==> alt == name.value
    ensures !Truthy(name) ==> alt == "Trip image"
  {
    if Truthy(name) then name.value else "Trip image"
  }

  /**
   * `formatDate`: `N/A` when there is no date; otherwise the locale
   * rendering, which is the `render` parameter.
   */
  function FormatDate(date: Option<string>, render: string -> string): (shown: string)
    ensures !Truthy(date) ==> shown == "N/A"
    ensures Truthy(date) ==> shown == render(date.value)
  {
    if !Truthy(date) then "N/A" else render(date.value)
  }

  /** The edit link, offered to admins only. */
  function EditHref(isAdmin: bool, code: string): (href: Option<string>)
    ensures href.Some? <==> isAdmin
    ensures href.Some? ==> StartsWith(href.value, EditPrefix) && href.value[|EditPrefix|..] == code
  {
    if isAdmin then Some(EditPrefix + code) else None
  }

  /** Every edit link leads to a page behind the admin gate. */
  lemma EditLinkIsGated(code: string)
    ensures Middleware.IsGated(EditHref(true, code).value)
  {
    var href := EditHref(true, code).value;
    assert Middleware.AdminPaths[2] == "/admin/edit-trip";
    assert href[..|Middleware.AdminPaths[2]|] == Middleware.AdminPaths[2];
  }
}
