/** critical_pinning_worklist.py and the totals of inventory_report.py. */
module Worklist {
  import opened Text
  import opened Lines
  import opened Pinning
  import opened Sorting

  // --- Sorting -----------------------------------------------------------------------------

  /** Python's order on texts: by code point. */
  predicate LeText(a: string, b: string) {
    CompareText(a, b) <= 0
  }

  datatype Item = Item(image: string, line: nat, reference: string)

  /** The sort key of the worklist: image, line, reference. */
  predicate LeItem(a: Item, b: Item) {
    if a.image != b.image then LeText(a.image, b.image)
    else if a.line != b.line then a.line < b.line
    else LeText(a.reference, b.reference)
  }

  lemma LeItemTotal(a: Item, b: Item)
    ensures LeItem(a, b) || LeItem(b, a)
  {
    TextOrder(a.image, b.image);
    TextOrder(a.reference, b.reference);
  }

  lemma LeItemAnti(a: Item, b: Item)
    ensures LeItem(a, b) && LeItem(b, a) ==> a == b
  {
    TextOrder(a.image, b.image);
    TextOrder(a.reference, b.reference);
  }

  lemma LeItemTrans(a: Item, b: Item, c: Item)
    ensures LeItem(a, b) && LeItem(b, c) ==> LeItem(a, c)
  {
    if LeItem(a, b) && LeItem(b, c) {
      if LeText(a.image, b.image) && LeText(b.image, c.image) {
        TextTransitive(a.image, b.image, c.image);
      }
      TextOrder(a.image, b.image);
      if LeText(a.reference, b.reference) && LeText(b.reference, c.reference) {
        TextTransitive(a.reference, b.reference, c.reference);
      }
    }
  }

  lemma ItemsTotal()
    ensures TotalOrder(LeItem) && forall a, b :: LeItem(a, b) && LeItem(b, a) ==> a == b
  {
    forall a, b ensures (LeItem(a, b) || LeItem(b, a)) && (LeItem(a, b) && LeItem(b, a) ==> a == b) {
      LeItemTotal(a, b);
      LeItemAnti(a, b);
    }
    forall a, b, c ensures LeItem(a, b) && LeItem(b, c) ==> LeItem(a, c) {
      LeItemTrans(a, b, c);
    }
  }

  // --- The inventory of the images -----------------------------------------------------------

  datatype Image = Image(name: string, tier: string, lines: seq<string>)

  /** `normalize_tier` */
  function NormalizeTier(value: string): string {
    var tier := Lower(Strip(value));
    if tier == "1" then "critical" else if tier == "2" || tier == "3" then "standard" else tier
  }

  predicate Critical(im: Image) {
    NormalizeTier(im.tier) == "critical"
  }

  function Loose(es: seq<Entry>): seq<Entry> {
    if es == [] then [] else (if es[0].pinned then [] else [es[0]]) + Loose(es[1..])
  }

  function Unpinned(lines: seq<string>): seq<Entry> {
    Loose(Scan(lines))
  }

  predicate AllPinned(lines: seq<string>) {
    Unpinned(lines) == [] && Scan(lines) != []
  }

  /** How many of the first n images satisfy critical-and-pinned, and how many are critical. */
  function FullyPinned(images: seq<Image>, n: nat): nat
    requires n <= |images|
  {
    if n == 0 then 0 else
    FullyPinned(images, n - 1) + if Critical(images[n - 1]) && AllPinned(images[n - 1].lines) then 1 else 0
  }

  // --- The worklist ------------------------------------------------------------------------------

  function Named(name: string, es: seq<Entry>): (r: seq<Item>)
    ensures |r| == |es| && forall i | 0 <= i < |es| :: r[i] == Item(name, es[i].line, es[i].reference)
  {
    seq(|es|, i requires 0 <= i < |es| => Item(name, es[i].line, es[i].reference))
  }

  function ItemsOf(im: Image): seq<Item> {
    if !Critical(im) || AllPinned(im.lines) then [] else Named(im.name, Unpinned(im.lines))
  }

  function Items(images: seq<Image>, n: nat): seq<Item>
    requires n <= |images|
  {
    if n == 0 then [] else Items(images, n - 1) + ItemsOf(images[n - 1])
  }

  /** `build_worklist`: the entries. */
  function WorkOf(images: seq<Image>): seq<Item> {
    Sort(Items(images, |images|), LeItem)
  }

  method BuildWorklist(images: seq<Image>) returns (entries: seq<Item>)
    ensures entries == WorkOf(images)
  {
    hide Critical;
    hide AllPinned;
    hide Unpinned;
    hide Sort;
    hide LeItem;
    entries := [];
    for i := 0 to |images|
      invariant entries == Items(images, i)
    {
      if !Critical(images[i]) || AllPinned(images[i].lines) {
        continue;
      }
      var sources := Unpinned(images[i].lines);
      for j := 0 to |sources|
        invariant entries == Items(images, i) + Named(images[i].name, sources[..j])
      {
        entries := entries + [Item(images[i].name, sources[j].line, sources[j].reference)];
        assert Named(images[i].name, sources[..j + 1]) ==
               Named(images[i].name, sources[..j]) + [Item(images[i].name, sources[j].line, sources[j].reference)];
      }
      assert sources[..|sources|] == sources;
    }
    entries := Sort(entries, LeItem);
  }
}
