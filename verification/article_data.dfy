/** The part of `article_data.json` that the WeChat article scripts share:
    the `image_urls` object written by `upload_images.py` and read by
    `inject_images.py`. */
module ArticleData {
  import opened Wrappers

  /** `image_urls`: the `cover` URL and the `content` list, each `None` when
      the key is absent. A slot of the list is `None` where the JSON holds
      `null`. */
  datatype ImageUrls = ImageUrls(cover: Option<string>, content: Option<seq<Option<string>>>)

  /** Python truthiness of an optional string: present and not empty. */
  predicate Truthy(u: Option<string>)
  {
    u.Some? && u.value != ""
  }
}
