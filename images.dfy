/** The "images_analysis" section: a `{src, alt}` record per image and the number of images
    whose `src` or `alt` is absent or empty. */
module Images {
  import opened Wrappers
  import opened Seqs
  import opened Dom

  datatype ImageRecord = ImageRecord(src: string, alt: string)

  datatype ImagesAnalysis = ImagesAnalysis(total: nat, noSrc: nat, noAlt: nat, data: seq<ImageRecord>)

  const ImageQuery := Named("img")

  /** `not img.get(attr)`: the attribute is absent or empty. */
  predicate Missing(img: Node, attr: string) {
    Attr(img, attr).None? || Attr(img, attr) == Some([])
  }

  predicate LacksSrc(img: Node) { Missing(img, "src") }

  predicate LacksAlt(img: Node) { Missing(img, "alt") }

  /** `{"src": img.get("src", ""), "alt": img.get("alt", "")}` */
  function RecordOf(img: Node): ImageRecord {
    ImageRecord(AttrOr(img, "src", ""), AttrOr(img, "alt", ""))
  }

  predicate EmptySrc(r: ImageRecord) { r.src == [] }

  predicate EmptyAlt(r: ImageRecord) { r.alt == [] }

  /** One record per image, in document order; each count is at most the total, and an image
      counts as lacking exactly when its record shows an empty value, so absent and empty
      attributes count alike. */
  function ImagesSection(doc: Document): (r: ImagesAnalysis)
    ensures r.total == Count(doc, ImageQuery) == |r.data|
    ensures forall i :: 0 <= i < |r.data| ==> r.data[i] == RecordOf(FindAll(doc, ImageQuery)[i])
    ensures r.noSrc <= r.total && r.noAlt <= r.total
    ensures r.noSrc == CountIf(EmptySrc, r.data) && r.noAlt == CountIf(EmptyAlt, r.data)
  {
    var images := FindAll(doc, ImageQuery);
    CountIfMap(EmptySrc, RecordOf, LacksSrc, images);
    CountIfMap(EmptyAlt, RecordOf, LacksAlt, images);
    ImagesAnalysis(|images|, CountIf(LacksSrc, images), CountIf(LacksAlt, images), Map(RecordOf, images))
  }
}
