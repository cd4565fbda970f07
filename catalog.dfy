/** The decoded `image_relations.json` catalog and the random choice of one
    entry at the start of a round. */
module Catalog {
  import opened Random

  /** An image reference (a URL in the catalog). */
  type Ident = string

  datatype Option<T> = None | Some(value: T)

  /** The four option images of an entry, in catalog order: the content image,
      the style image and two decoys. */
  datatype Options = Options(content: Ident, style: Ident, decoy1: Ident, decoy2: Ident)

  /** The value stored under a stylized-image key: the options and the list of
      process-frame lists (the first one is the one shown). */
  datatype Entry = Entry(options: Options, processImages: seq<seq<Ident>>)

  /** One key of the catalog object with its entry. */
  datatype Item = Item(key: Ident, entry: Entry)

  /** The options as the list `[content, style, decoy1, decoy2]`. */
  function OptionList(o: Options): seq<Ident>
  {
    [o.content, o.style, o.decoy1, o.decoy2]
  }

  /** The four options of an entry are pairwise distinct. */
  predicate DistinctOptions(o: Options)
  {
    o.content != o.style && o.content != o.decoy1 && o.content != o.decoy2 &&
    o.style != o.decoy1 && o.style != o.decoy2 && o.decoy1 != o.decoy2
  }

  /** `processImages[0]` of an entry: undefined (None) when the entry has no
      frame list. */
  function FirstFrames(e: Entry): Option<seq<Ident>>
  {
    if e.processImages == [] then None else Some(e.processImages[0])
  }

  /** The entry under the randomly drawn key, with the catalog given in
      `Object.keys` order. An empty catalog has no entry to draw: the source
      then fails on destructuring `undefined`. */
  function DrawItem(catalog: seq<Item>, draw: Draw): (r: Option<Item>)
    ensures r.None? <==> catalog == []
    ensures r.Some? ==> r.value in catalog
    ensures r.Some? ==> r.value == catalog[RandomIndex(draw, |catalog|)]
  {
    if catalog == [] then None else Some(catalog[RandomIndex(draw, |catalog|)])
  }
}
