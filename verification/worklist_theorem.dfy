/** Proposals shorten the worklist by exactly their entries. */
module WorklistTheorem {
  import opened Text
  import opened Lines
  import opened Pinning
  import opened PinningTheorem
  import opened Sorting
  import opened Worklist

  // --- One image ---------------------------------------------------------------------------

  lemma {:induction false} LooseAppend(a: seq<Entry>, b: seq<Entry>)
    ensures Loose(a + b) == Loose(a) + Loose(b)
  {
    if a == [] {
      assert a + b == b;
    } else {
      assert (a + b)[1..] == a[1..] + b;
      LooseAppend(a[1..], b);
    }
  }

  /** A critical image contributes its unpinned entries, whether or not it is skipped. */
  lemma CriticalItems(im: Image)
    requires Critical(im)
    ensures ItemsOf(im) == Named(im.name, Unpinned(im.lines))
  {
    hide Critical;
    hide Unpinned;
    hide Scan;
  }

  /** The scan around one entry. */
  lemma {:induction false} ScanAround(lines: seq<string>, i: nat, n: nat) returns (a: seq<Entry>, b: seq<Entry>)
    requires i < n <= |lines| && FromRef(Strip(lines[i])).Some?
    ensures var r := FromRef(Strip(lines[i])).value; FromLines(lines, n) == a + ([Entry(i + 1, r, Pinned(r))] + b)
    ensures (forall e | e in a :: e.line < i + 1) && forall e | e in b :: i + 1 < e.line
  {
    hide FromRef;
    hide Strip;
    hide Pinned;
    EntryAlone(lines[n - 1], n);
    hide EntryOf;
    ScanStep(lines, n);
    if i == n - 1 {
      ScanRange(lines, n - 1);
      a, b := FromLines(lines, n - 1), [];
      assert EntryOf(lines[i], n) + [] == EntryOf(lines[i], n);
    } else {
      var a', b' := ScanAround(lines, i, n - 1);
      a, b := a', b' + EntryOf(lines[n - 1], n);
      var r := FromRef(Strip(lines[i])).value;
      var e := [Entry(i + 1, r, Pinned(r))];
      assert a' + (e + b') + EntryOf(lines[n - 1], n) == a' + (e + (b' + EntryOf(lines[n - 1], n)));
    }
  }

  /** Turning one unpinned entry of the scan pinned removes it from the unpinned ones, and no other. */
  lemma TurnRemoves(a: seq<Entry>, e: Entry, b: seq<Entry>, digest: string)
    requires !e.pinned && (forall x | x in a :: x.line != e.line) && (forall x | x in b :: x.line != e.line)
    ensures Loose(a + ([e] + b)) == Loose(a) + ([e] + Loose(b))
    ensures Loose(TurnPinned(a + ([e] + b), e.line, digest)) == Loose(a) + Loose(b)
  {
    hide PinnedRef;
    LooseAppend(a, [e] + b);
    LooseAppend([e], b);
    LooseOne(e);
    TurnAppend(a, [e] + b, e.line, digest);
    TurnAppend([e], b, e.line, digest);
    Untouched(a, e.line, digest);
    Untouched(b, e.line, digest);
    TurnOne([e], digest);
    hide Loose;
    hide TurnPinned;
    var e' := Entry(e.line, PinnedRef(e.reference, digest), true);
    LooseAppend(a, [e'] + b);
    LooseAppend([e'], b);
    LooseOne(e');
    assert [] + Loose(b) == Loose(b);
  }

  lemma LooseOne(e: Entry)
    ensures Loose([e]) == if e.pinned then [] else [e]
  {
    assert [e][1..] == [];
  }

  // --- One proposal ------------------------------------------------------------------------------

  /** A proposal: the entry of the worklist and the new line. */
  datatype Proposal = Proposal(item: Item, patched: string)

  /** The line that a proposal is for holds its unpinned reference, and the new line pins it. */
  ghost predicate Fits(im: Image, p: Proposal) {
    && im.name == p.item.image && Critical(im)
    && 1 <= p.item.line <= |im.lines|
    && FromRef(Strip(im.lines[p.item.line - 1])) == Some(p.item.reference)
    && !Pinned(p.item.reference)
    && PinsLine(im.lines[p.item.line - 1], p)
  }

  ghost predicate PinsLine(line: string, p: Proposal) {
    exists digest :: Pins(line, p, digest)
  }

  predicate Pins(line: string, p: Proposal, digest: string) {
    && ProperDigest(digest) && !Has(Word(Strip(line)), p.item.reference)
    && p.patched == ReplaceFirst(line, p.item.reference, PinnedRef(p.item.reference, digest))
  }

  function Patch(im: Image, p: Proposal): Image
    requires 1 <= p.item.line <= |im.lines|
  {
    im.(lines := im.lines[p.item.line - 1 := p.patched])
  }

  lemma PatchScan(im: Image, p: Proposal) returns (digest: string)
    requires Fits(im, p)
    ensures Scan(Patch(im, p).lines) == TurnPinned(Scan(im.lines), p.item.line, digest)
  {
    var i, lines := p.item.line - 1, im.lines;
    digest :| Pins(lines[i], p, digest);
    PinPatched(lines[i], digest);
    hide FromRef;
    hide Strip;
    hide Pinned;
    hide Has;
    hide ReplaceFirst;
    hide PinnedRef;
    hide ValidateDigest;
    hide Critical;
    EntryAlone(lines[i], i + 1);
    EntryAlone(p.patched, i + 1);
    hide EntryOf;
    hide TurnPinned;
    TurnOne(EntryOf(lines[i], i + 1), digest);
    Rescan(lines, i, p.patched, digest, |lines|);
  }

  /** The unpinned entries of an image lose exactly the one of the proposal. */
  lemma PatchRemoves(im: Image, p: Proposal) returns (a: seq<Entry>, b: seq<Entry>)
    requires Fits(im, p)
    ensures Unpinned(im.lines) == a + ([Entry(p.item.line, p.item.reference, false)] + b)
    ensures Unpinned(Patch(im, p).lines) == a + b
  {
    hide FromRef;
    hide Pinned;
    hide PinsLine;
    hide Critical;
    hide TurnPinned;
    hide Loose;
    var digest := PatchScan(im, p);
    var before, after := ScanAround(im.lines, p.item.line - 1, |im.lines|);
    TurnRemoves(before, Entry(p.item.line, p.item.reference, false), after, digest);
    a, b := Loose(before), Loose(after);
  }

  lemma NamedAppend(name: string, a: seq<Entry>, b: seq<Entry>)
    ensures Named(name, a + b) == Named(name, a) + Named(name, b)
  {
  }

  lemma ItemRemoved(im: Image, p: Proposal)
    requires Fits(im, p)
    ensures multiset(ItemsOf(im)) == multiset(ItemsOf(Patch(im, p))) + multiset{p.item}
  {
    hide Critical;
    hide Unpinned;
    hide AllPinned;
    var a, b := PatchRemoves(im, p);
    var e := Entry(p.item.line, p.item.reference, false);
    CriticalItems(im);
    assert Critical(Patch(im, p)) by { SameTier(im, p); }
    CriticalItems(Patch(im, p));
    NamedAppend(im.name, a, [e] + b);
    NamedAppend(im.name, [e], b);
    NamedAppend(im.name, a, b);
    assert Named(im.name, [e]) == [p.item];
  }

  lemma SameTier(im: Image, p: Proposal)
    requires Critical(im) && 1 <= p.item.line <= |im.lines|
    ensures Critical(Patch(im, p))
  {
  }

  lemma {:induction false} ItemsUpdate(images: seq<Image>, i: nat, im: Image, x: Item, n: nat)
    requires i < |images| && n <= |images|
    requires multiset(ItemsOf(images[i])) == multiset(ItemsOf(im)) + multiset{x}
    ensures multiset(Items(images, n)) == multiset(Items(images[i := im], n)) + Once(x, i < n)
  {
    hide ItemsOf;
    if n > 0 {
      ItemsUpdate(images, i, im, x, n - 1);
      ItemsStep(images, n);
      ItemsStep(images[i := im], n);
      hide Items;
      assert images[i := im][n - 1] == if i == n - 1 then im else images[n - 1];
    }
  }

  ghost function Once(x: Item, held: bool): multiset<Item> {
    if held then multiset{x} else multiset{}
  }

  lemma ItemsStep(images: seq<Image>, n: nat)
    requires 0 < n <= |images|
    ensures multiset(Items(images, n)) == multiset(Items(images, n - 1)) + multiset(ItemsOf(images[n - 1]))
  {
    hide ItemsOf;
  }

  lemma {:induction false} PinnedUpdate(images: seq<Image>, i: nat, im: Image, n: nat)
    requires i < |images| && n <= |images| && Critical(images[i]) && Critical(im)
    ensures FullyPinned(images[i := im], n) + (if i < n && AllPinned(images[i].lines) then 1 else 0) ==
            FullyPinned(images, n) + (if i < n && AllPinned(im.lines) then 1 else 0)
  {
    hide Critical;
    hide AllPinned;
    if n > 0 {
      PinnedUpdate(images, i, im, n - 1);
    }
  }

  /**
   Applying a proposal shortens the worklist by exactly its entry, in place; the count of fully
   pinned critical images grows by one when it was the last of its image, and stays otherwise.
   */
  lemma ProposalShortens(images: seq<Image>, i: nat, p: Proposal) returns (k: nat)
    requires i < |images| && Fits(images[i], p)
    ensures var after := images[i := Patch(images[i], p)];
            && k < |WorkOf(images)| && WorkOf(images)[k] == p.item
            && WorkOf(after) == WorkOf(images)[..k] + WorkOf(images)[k + 1..]
            && FullyPinned(after, |images|) ==
               FullyPinned(images, |images|) + if |Unpinned(images[i].lines)| == 1 then 1 else 0
  {
    ItemRemoved(images[i], p);
    var im := Patch(images[i], p);
    var after := images[i := im];
    ItemsUpdate(images, i, im, p.item, |images|);
    LastOne(images[i], p);
    SameTier(images[i], p);
    PinnedUpdate(images, i, im, |images|);
    hide Fits;
    hide Critical;
    hide AllPinned;
    hide Items;
    hide Sort;
    hide Unpinned;
    var work, left := WorkOf(images), WorkOf(after);
    SortBag(Items(images, |images|), LeItem);
    SortBag(Items(after, |after|), LeItem);
    assert multiset(work) == multiset(left) + multiset{p.item};
    k := WithoutOne(work, left, p.item, images, after);
  }

  lemma WithoutOne(work: seq<Item>, left: seq<Item>, x: Item, images: seq<Image>, after: seq<Image>) returns (k: nat)
    requires work == WorkOf(images) && left == WorkOf(after) && multiset(work) == multiset(left) + multiset{x}
    ensures k < |work| && work[k] == x && left == work[..k] + work[k + 1..]
  {
    ItemsTotal();
    SortOrdered(Items(images, |images|), LeItem);
    SortOrdered(Items(after, |after|), LeItem);
    hide WorkOf;
    hide LeItem;
    hide Ordered;
    hide Sort;
    assert x in multiset(work);
    k :| 0 <= k < |work| && work[k] == x;
    CutAt(work, k);
    OrderedUnique(left, work[..k] + work[k + 1..], LeItem);
  }

  lemma CutAt(s: seq<Item>, k: nat)
    requires k < |s| && Ordered(s, LeItem)
    ensures Ordered(s[..k] + s[k + 1..], LeItem) && multiset(s[..k] + s[k + 1..]) == multiset(s) - multiset{s[k]}
  {
    hide LeItem;
    var rest := s[..k] + s[k + 1..];
    assert s == s[..k] + ([s[k]] + s[k + 1..]);
    forall i, j | 0 <= i < j < |rest| ensures LeItem(rest[i], rest[j]) {
      assert rest[i] == s[if i < k then i else i + 1] && rest[j] == s[if j < k then j else j + 1];
    }
  }

  lemma LastOne(im: Image, p: Proposal)
    requires Fits(im, p)
    ensures !AllPinned(im.lines) && (AllPinned(Patch(im, p).lines) <==> |Unpinned(im.lines)| == 1)
  {
    var a, b := PatchRemoves(im, p);
    ScanKept(im, p);
    hide Scan;
    hide Loose;
    hide FromRef;
    assert |Unpinned(im.lines)| == |a| + 1 + |b|;
  }

  lemma ScanKept(im: Image, p: Proposal)
    requires Fits(im, p)
    ensures |Scan(Patch(im, p).lines)| == |Scan(im.lines)| > 0
  {
    hide FromRef;
    hide Pinned;
    hide PinsLine;
    hide Critical;
    hide FromLines;
    var digest := PatchScan(im, p);
    TurnLength(Scan(im.lines), p.item.line, digest);
    InScan(im.lines, p.item.line - 1, |im.lines|);
  }
}
