/** `generate_proposals` of resolve_critical_digests.py, and applying what it proposes. */
module Proposals {
  import opened Text
  import opened Lines
  import opened Pinning
  import opened PinningTheorem
  import opened Sorting
  import opened Worklist
  import opened WorklistTheorem

  /** What the registry answered for an entry. */
  datatype Resolution = Resolution(image: string, line: nat, status: string, digest: string, mediaType: string,
                                   isIndex: bool, platforms: seq<string>, expanded: Option<string>)

  /** `eligible_for_index_pin` */
  predicate Eligible(r: Resolution) {
    && r.isIndex
    && (Has(r.mediaType, "manifest.list") || Has(r.mediaType, "image.index"))
    && exists i | 0 <= i < |r.platforms| :: "linux/" <= r.platforms[i]
  }

  /** The last of the first n resolutions for an entry. */
  function Answer(rs: seq<Resolution>, n: nat, item: Item): Option<Resolution>
    requires n <= |rs|
  {
    if n == 0 then None else
    if rs[n - 1].image == item.image && rs[n - 1].line == item.line then Some(rs[n - 1]) else Answer(rs, n - 1, item)
  }

  /** The lines of the file of an entry. */
  function LinesOf(images: seq<Image>, name: string): seq<string> {
    if images == [] then [] else if images[0].name == name then images[0].lines else LinesOf(images[1..], name)
  }

  /** What is proposed for one entry. */
  function Proposed(images: seq<Image>, rs: seq<Resolution>, environment: map<string, string>, item: Item): seq<Proposal> {
    match Answer(rs, |rs|, item)
    case None => []
    case Some(r) =>
      if r.status != "resolved" || !Eligible(r) then [] else
      match ProposePatch(LinesOf(images, item.image), item.line, item.reference, r.digest, r.expanded, environment)
      case None => []
      case Some(patched) => if patched == "" then [] else [Proposal(item, patched)]
  }

  function AllProposed(images: seq<Image>, rs: seq<Resolution>, environment: map<string, string>, work: seq<Item>,
                       n: nat): seq<Proposal>
    requires n <= |work|
  {
    if n == 0 then [] else
    AllProposed(images, rs, environment, work, n - 1) + Proposed(images, rs, environment, work[n - 1])
  }

  /** `generate_proposals`: sorted by image and line. */
  function Generated(images: seq<Image>, rs: seq<Resolution>, environment: map<string, string>, work: seq<Item>): seq<Proposal> {
    Sort(AllProposed(images, rs, environment, work, |work|), LeKey)
  }

  /** The order of the sorted proposals: image and line. */
  predicate LeKey(a: Proposal, b: Proposal) {
    if a.item.image != b.item.image then LeText(a.item.image, b.item.image) else a.item.line <= b.item.line
  }

  lemma KeyTrans(a: Proposal, b: Proposal, c: Proposal)
    requires LeKey(a, b) && LeKey(b, c)
    ensures LeKey(a, c)
  {
    if a.item.image != b.item.image && b.item.image != c.item.image {
      TextTransitive(a.item.image, b.item.image, c.item.image);
      TextOrder(a.item.image, b.item.image);
      TextOrder(b.item.image, c.item.image);
    }
  }

  lemma KeysTotal()
    ensures TotalOrder(LeKey)
  {
    forall a, b ensures LeKey(a, b) || LeKey(b, a) {
      TextOrder(a.item.image, b.item.image);
    }
    forall a, b, c ensures LeKey(a, b) && LeKey(b, c) ==> LeKey(a, c) {
      if LeKey(a, b) && LeKey(b, c) {
        KeyTrans(a, b, c);
      }
    }
  }

  /** The final sort has nothing left to do when the worklist is ordered. */
  method GenerateProposals(images: seq<Image>, work: seq<Item>, rs: seq<Resolution>, environment: map<string, string>)
    returns (proposals: seq<Proposal>)
    ensures proposals == Generated(images, rs, environment, work) && Ordered(proposals, LeKey)
    ensures Ordered(work, LeItem) ==> proposals == AllProposed(images, rs, environment, work, |work|)
  {
    hide Proposed;
    hide Ordered;
    proposals := [];
    for i := 0 to |work|
      invariant proposals == AllProposed(images, rs, environment, work, i)
    {
      var found := FindAnswer(rs, work[i]);
      var more := ProposeOne(images, found, environment, work[i]);
      ProposedIs(images, rs, environment, work[i]);
      proposals := proposals + more;
    }
    KeysTotal();
    SortOrdered(proposals, LeKey);
    ghost var ordered := Ordered(work, LeItem);
    if ordered {
      OrderedProposals(images, rs, environment, work, |work|);
      SortAlready(proposals, LeKey);
    }
    proposals := Sort(proposals, LeKey);
  }

  /** The dictionary by image and line: a later resolution replaces an earlier one. */
  method FindAnswer(rs: seq<Resolution>, item: Item) returns (found: Option<Resolution>)
    ensures found == Answer(rs, |rs|, item)
  {
    found := None;
    for i := 0 to |rs|
      invariant found == Answer(rs, i, item)
    {
      if rs[i].image == item.image && rs[i].line == item.line {
        found := Some(rs[i]);
      }
    }
  }

  function ForAnswer(images: seq<Image>, found: Option<Resolution>, environment: map<string, string>, item: Item): seq<Proposal> {
    if found == None || found.value.status != "resolved" || !Eligible(found.value) then [] else
    var patched := ProposePatch(LinesOf(images, item.image), item.line, item.reference, found.value.digest,
                                found.value.expanded, environment);
    if patched == None || patched.value == "" then [] else [Proposal(item, patched.value)]
  }

  lemma ProposedIs(images: seq<Image>, rs: seq<Resolution>, environment: map<string, string>, item: Item)
    ensures Proposed(images, rs, environment, item) == ForAnswer(images, Answer(rs, |rs|, item), environment, item)
  {
    hide ProposePatch;
    hide Eligible;
    hide LinesOf;
    hide Answer;
  }

  method ProposeOne(images: seq<Image>, found: Option<Resolution>, environment: map<string, string>, item: Item)
    returns (more: seq<Proposal>)
    ensures more == ForAnswer(images, found, environment, item)
  {
    hide ProposePatch;
    hide Eligible;
    hide LinesOf;
    if found == None || found.value.status != "resolved" {
      return [];
    }
    if !Eligible(found.value) {
      return [];
    }
    var patched := ProposePatch(LinesOf(images, item.image), item.line, item.reference, found.value.digest,
                                found.value.expanded, environment);
    if patched.Some? && patched.value != "" {
      return [Proposal(item, patched.value)];
    }
    return [];
  }

  // --- The final sort -------------------------------------------------------------------------

  /** Which entry a proposal is for. */
  lemma {:induction false} ProposedFor(images: seq<Image>, rs: seq<Resolution>, environment: map<string, string>,
                                       work: seq<Item>, n: nat, p: Proposal) returns (i: nat)
    requires n <= |work| && p in AllProposed(images, rs, environment, work, n)
    ensures i < n && work[i] == p.item && p in Proposed(images, rs, environment, p.item)
  {
    hide Proposed;
    if p in AllProposed(images, rs, environment, work, n - 1) {
      i := ProposedFor(images, rs, environment, work, n - 1, p);
    } else {
      i := n - 1;
      OneProposed(images, rs, environment, work[i]);
    }
  }

  lemma {:induction false} OrderedProposals(images: seq<Image>, rs: seq<Resolution>, environment: map<string, string>,
                                            work: seq<Item>, n: nat)
    requires Ordered(work, LeItem) && n <= |work|
    ensures Ordered(AllProposed(images, rs, environment, work, n), LeKey)
  {
    hide Proposed;
    hide LeItem;
    hide LeKey;
    hide Ordered;
    if n == 0 {
      NoneOrdered();
    } else {
      OrderedProposals(images, rs, environment, work, n - 1);
      OneProposed(images, rs, environment, work[n - 1]);
      var before, more := AllProposed(images, rs, environment, work, n - 1), Proposed(images, rs, environment, work[n - 1]);
      if more == [] {
        assert before + more == before;
      } else {
        forall p | p in before ensures LeKey(p, more[0]) {
          var i := ProposedFor(images, rs, environment, work, n - 1, p);
          OrderedAt(work, i, n - 1);
          ItemToKey(p, more[0]);
        }
        Appended(before, more);
      }
    }
  }

  lemma OrderedAt(work: seq<Item>, i: nat, j: nat)
    requires Ordered(work, LeItem) && i < j < |work|
    ensures LeItem(work[i], work[j])
  {
    hide LeItem;
  }

  lemma NoneOrdered()
    ensures Ordered([], LeKey)
  {
  }

  lemma OneProposed(images: seq<Image>, rs: seq<Resolution>, environment: map<string, string>, item: Item)
    ensures |Proposed(images, rs, environment, item)| <= 1
    ensures forall p | p in Proposed(images, rs, environment, item) :: p.item == item
  {
    hide ProposePatch;
    hide Eligible;
  }

  lemma ItemToKey(a: Proposal, b: Proposal)
    ensures LeItem(a.item, b.item) ==> LeKey(a, b)
  {
  }

  lemma Appended(a: seq<Proposal>, b: seq<Proposal>)
    requires Ordered(a, LeKey) && |b| <= 1 && forall p | p in a :: b != [] ==> LeKey(p, b[0])
    ensures Ordered(a + b, LeKey)
  {
    hide LeKey;
  }

  // --- Applying the proposals -----------------------------------------------------------------

  function Applied(im: Image, p: Proposal): Image {
    if im.name == p.item.image && 1 <= p.item.line <= |im.lines| then Patch(im, p) else im
  }

  /** Every image gets the new lines that are for it. */
  function Apply(images: seq<Image>, p: Proposal): (r: seq<Image>)
    ensures |r| == |images| && forall i | 0 <= i < |images| :: r[i] == Applied(images[i], p)
  {
    seq(|images|, i requires 0 <= i < |images| => Applied(images[i], p))
  }

  function ApplyAll(images: seq<Image>, ps: seq<Proposal>): seq<Image>
    decreases |ps|
  {
    if ps == [] then images else ApplyAll(Apply(images, ps[0]), ps[1..])
  }

  /** The images are directories: no two have the same name. */
  predicate DistinctNames(images: seq<Image>) {
    forall i, j | 0 <= i < j < |images| :: images[i].name != images[j].name
  }

  ghost predicate FitsIn(images: seq<Image>, p: Proposal) {
    exists i :: 0 <= i < |images| && Fits(images[i], p)
  }

  predicate OtherLine(p: Proposal, q: Proposal) {
    p.item.image != q.item.image || p.item.line != q.item.line
  }

  predicate DistinctLines(ps: seq<Proposal>) {
    forall i, j | 0 <= i < j < |ps| :: OtherLine(ps[i], ps[j])
  }

  function ItemsIn(ps: seq<Proposal>): (r: seq<Item>)
    ensures |r| == |ps| && forall i | 0 <= i < |ps| :: r[i] == ps[i].item
  {
    seq(|ps|, i requires 0 <= i < |ps| => ps[i].item)
  }

  lemma ApplyIsOne(images: seq<Image>, p: Proposal, i: nat)
    requires DistinctNames(images) && i < |images| && Fits(images[i], p)
    ensures Apply(images, p) == images[i := Patch(images[i], p)] && DistinctNames(Apply(images, p))
  {
    hide FromRef;
    hide Strip;
    hide Critical;
    hide Pinned;
    hide PinsLine;
    var after := Apply(images, p);
    forall j | 0 <= j < |images| ensures after[j] == images[i := Patch(images[i], p)][j] && after[j].name == images[j].name {
    }
  }

  /** A proposal for another line still fits. */
  lemma StillFits(im: Image, p: Proposal, q: Proposal)
    requires Fits(im, p) && OtherLine(p, q)
    ensures Fits(Applied(im, q), p)
  {
    hide FromRef;
    hide Strip;
    hide Pinned;
    hide PinsLine;
    hide NormalizeTier;
  }

  lemma StillFitsIn(images: seq<Image>, p: Proposal, q: Proposal)
    requires FitsIn(images, p) && OtherLine(p, q)
    ensures FitsIn(Apply(images, q), p)
  {
    hide Fits;
    hide Applied;
    var i :| 0 <= i < |images| && Fits(images[i], p);
    StillFits(images[i], p, q);
    assert Fits(Apply(images, q)[i], p);
  }

  /** Proposals for different lines can be applied in any order. */
  lemma ProposalsCommute(images: seq<Image>, p: Proposal, q: Proposal)
    requires OtherLine(p, q)
    ensures Apply(Apply(images, p), q) == Apply(Apply(images, q), p)
  {
    var pq, qp := Apply(Apply(images, p), q), Apply(Apply(images, q), p);
    forall i | 0 <= i < |images| ensures pq[i] == qp[i] {
      var im := images[i];
      if im.name == p.item.image == q.item.image && 1 <= p.item.line <= |im.lines| && 1 <= q.item.line <= |im.lines| {
        assert im.lines[p.item.line - 1 := p.patched][q.item.line - 1 := q.patched] ==
               im.lines[q.item.line - 1 := q.patched][p.item.line - 1 := p.patched];
      }
    }
  }

  /** Applying proposals for different lines takes exactly their entries off the worklist. */
  lemma {:induction false} ApplyAllShortens(images: seq<Image>, ps: seq<Proposal>)
    requires DistinctNames(images) && DistinctLines(ps) && AllFit(images, ps)
    ensures multiset(WorkOf(images)) == multiset(WorkOf(ApplyAll(images, ps))) + multiset(ItemsIn(ps))
    decreases |ps|
  {
    hide WorkOf;
    hide Apply;
    hide DistinctNames;
    hide AllFit;
    hide DistinctLines;
    ItemsBag(ps);
    hide ItemsIn;
    if ps != [] {
      OthersFit(images, ps);
      OneApplied(images, ps[0]);
      ApplyAllShortens(Apply(images, ps[0]), ps[1..]);
    }
  }

  lemma ItemsBag(ps: seq<Proposal>)
    ensures multiset(ItemsIn(ps)) == if ps == [] then multiset{} else multiset{ps[0].item} + multiset(ItemsIn(ps[1..]))
  {
    if ps == [] {
      assert ItemsIn(ps) == [];
    } else {
      assert ItemsIn(ps) == [ps[0].item] + ItemsIn(ps[1..]);
    }
  }

  ghost predicate AllFit(images: seq<Image>, ps: seq<Proposal>) {
    forall i | 0 <= i < |ps| :: FitsIn(images, ps[i])
  }

  lemma OthersFit(images: seq<Image>, ps: seq<Proposal>)
    requires ps != [] && DistinctLines(ps) && AllFit(images, ps)
    ensures FitsIn(images, ps[0]) && DistinctLines(ps[1..]) && AllFit(Apply(images, ps[0]), ps[1..])
  {
    hide FitsIn;
    hide OtherLine;
    hide Apply;
    forall i | 0 <= i < |ps[1..]| ensures FitsIn(Apply(images, ps[0]), ps[1..][i]) {
      OtherBack(ps[0], ps[i + 1]);
      StillFitsIn(images, ps[i + 1], ps[0]);
    }
  }

  lemma OtherBack(p: Proposal, q: Proposal)
    ensures OtherLine(p, q) ==> OtherLine(q, p)
  {
  }

  lemma OneApplied(images: seq<Image>, p: Proposal)
    requires DistinctNames(images) && FitsIn(images, p)
    ensures multiset(WorkOf(images)) == multiset(WorkOf(Apply(images, p))) + multiset{p.item}
    ensures DistinctNames(Apply(images, p))
  {
    hide WorkOf;
    hide Fits;
    hide DistinctNames;
    hide Apply;
    hide Unpinned;
    hide FullyPinned;
    var i :| 0 <= i < |images| && Fits(images[i], p);
    ApplyIsOne(images, p, i);
    assert 1 <= p.item.line <= |images[i].lines| by { FitsLine(images[i], p); }
    var k := ProposalShortens(images, i, p);
    Shortened(WorkOf(images), k);
  }

  lemma FitsLine(im: Image, p: Proposal)
    requires Fits(im, p)
    ensures 1 <= p.item.line <= |im.lines|
  {
  }

  lemma Shortened(work: seq<Item>, k: nat)
    requires k < |work|
    ensures multiset(work) == multiset(work[..k] + work[k + 1..]) + multiset{work[k]}
  {
    assert work == work[..k] + ([work[k]] + work[k + 1..]);
  }

  // --- What is proposed fits --------------------------------------------------------------------

  lemma {:induction false} LinesOfImage(images: seq<Image>, i: nat)
    requires DistinctNames(images) && i < |images|
    ensures LinesOf(images, images[i].name) == images[i].lines
  {
    if i > 0 {
      assert images[0].name != images[i].name;
      LinesOfImage(images[1..], i - 1);
    }
  }

  /** The image and the line that an entry of the worklist came from. */
  lemma {:induction false} ItemFrom(images: seq<Image>, n: nat, item: Item) returns (i: nat)
    requires n <= |images| && item in Items(images, n)
    ensures i < n && images[i].name == item.image && Critical(images[i]) && 1 <= item.line <= |images[i].lines|
    ensures FromRef(Strip(images[i].lines[item.line - 1])) == Some(item.reference) && !Pinned(item.reference)
  {
    hide ItemsOf;
    if item in Items(images, n - 1) {
      i := ItemFrom(images, n - 1, item);
    } else {
      i := n - 1;
      ItemOfImage(images[i], item);
    }
  }

  lemma ItemOfImage(im: Image, item: Item)
    requires item in ItemsOf(im)
    ensures im.name == item.image && Critical(im) && 1 <= item.line <= |im.lines|
    ensures FromRef(Strip(im.lines[item.line - 1])) == Some(item.reference) && !Pinned(item.reference)
  {
    hide Critical;
    hide FromRef;
    hide Strip;
    hide Pinned;
    hide FromLines;
    hide Loose;
    hide AllPinned;
    var es := Unpinned(im.lines);
    var named := Named(im.name, es);
    assert item in named;
    var j :| 0 <= j < |named| && named[j] == item;
    assert es[j] in es;
    LooseFrom(Scan(im.lines), es[j]);
    EntryFrom(im.lines, |im.lines|, es[j]);
  }

  lemma {:induction false} LooseFrom(es: seq<Entry>, e: Entry)
    requires e in Loose(es)
    ensures e in es && !e.pinned
  {
    if e in Loose(es[1..]) {
      LooseFrom(es[1..], e);
    }
  }

  lemma {:induction false} EntryFrom(lines: seq<string>, n: nat, e: Entry)
    requires n <= |lines| && e in FromLines(lines, n)
    ensures 1 <= e.line <= n && FromRef(Strip(lines[e.line - 1])) == Some(e.reference) && e.pinned == Pinned(e.reference)
  {
    hide FromRef;
    hide Strip;
    hide Pinned;
    hide EntryOf;
    if e in FromLines(lines, n - 1) {
      EntryFrom(lines, n - 1, e);
    } else {
      EntryAlone(lines[n - 1], n);
    }
  }

  /** The keyword of a FROM line, as it is typed, does not hold the reference. */
  predicate KeywordSpared(images: seq<Image>, item: Item) {
    var lines := LinesOf(images, item.image);
    1 <= item.line <= |lines| ==> !Has(Word(Strip(lines[item.line - 1])), item.reference)
  }

  predicate ProperAnswers(rs: seq<Resolution>) {
    forall i | 0 <= i < |rs| :: rs[i].status == "resolved" ==> ProperDigest(rs[i].digest)
  }

  lemma ProposedFits(images: seq<Image>, rs: seq<Resolution>, environment: map<string, string>, item: Item, p: Proposal)
    requires DistinctNames(images) && item in WorkOf(images) && KeywordSpared(images, item) && ProperAnswers(rs)
    requires p in Proposed(images, rs, environment, item)
    ensures FitsIn(images, p)
  {
    hide Critical;
    hide Items;
    hide FromRef;
    hide Strip;
    hide Pinned;
    hide Proposed;
    hide ProperAnswers;
    hide LinesOf;
    assert item in Items(images, |images|) by {
      SortBag(Items(images, |images|), LeItem);
      SameElements(WorkOf(images), Items(images, |images|));
    }
    hide WorkOf;
    var i := ItemFrom(images, |images|, item);
    LinesOfImage(images, i);
    hide DistinctNames;
    var digest := ProposedPins(images, rs, environment, item, p);
    hide Pins;
    assert Fits(images[i], p);
  }

  lemma ProposedPins(images: seq<Image>, rs: seq<Resolution>, environment: map<string, string>, item: Item, p: Proposal)
    returns (digest: string)
    requires KeywordSpared(images, item) && ProperAnswers(rs) && p in Proposed(images, rs, environment, item)
    ensures p.item == item && 1 <= item.line <= |LinesOf(images, item.image)|
    ensures Pins(LinesOf(images, item.image)[item.line - 1], p, digest)
  {
    hide ProposePatch;
    hide Eligible;
    hide Answer;
    hide LinesOf;
    hide ValidateDigest;
    hide ReplaceFirst;
    hide PinnedRef;
    hide Strip;
    hide Has;
    var r := Answered(rs, |rs|, item);
    PatchIsReplacement(LinesOf(images, item.image), item.line, item.reference, r.digest, r.expanded, environment);
    digest := r.digest;
  }

  lemma {:induction false} Answered(rs: seq<Resolution>, n: nat, item: Item) returns (r: Resolution)
    requires n <= |rs|
    ensures Answer(rs, n, item).Some? ==> r in rs && Answer(rs, n, item) == Some(r)
  {
    if n == 0 {
      r := Resolution("", 0, "", "", "", false, [], None);
    } else if rs[n - 1].image == item.image && rs[n - 1].line == item.line {
      r := rs[n - 1];
    } else {
      r := Answered(rs, n - 1, item);
    }
  }

  // --- No two entries are for the same line -----------------------------------------------------

  predicate Ascending(es: seq<Entry>) {
    forall i, j | 0 <= i < j < |es| :: es[i].line < es[j].line
  }

  lemma {:induction false} ScanAscending(lines: seq<string>, n: nat)
    requires n <= |lines|
    ensures Ascending(FromLines(lines, n))
  {
    hide EntryOf;
    if n > 0 {
      ScanAscending(lines, n - 1);
      ScanRange(lines, n - 1);
      hide FromRef;
      hide Strip;
      hide Pinned;
      EntryAlone(lines[n - 1], n);
    }
  }

  lemma {:induction false} LooseAscending(es: seq<Entry>)
    requires Ascending(es)
    ensures Ascending(Loose(es))
  {
    if es != [] {
      LooseAscending(es[1..]);
      var rest := Loose(es[1..]);
      forall j | 0 <= j < |rest| ensures es[0].line < rest[j].line {
        LooseFrom(es[1..], rest[j]);
      }
    }
  }

  predicate OtherKey(a: Item, b: Item) {
    a.image != b.image || a.line != b.line
  }

  predicate DistinctKeys(s: seq<Item>) {
    forall i, j | 0 <= i < j < |s| :: OtherKey(s[i], s[j])
  }

  lemma {:induction false} ItemsDistinct(images: seq<Image>, n: nat)
    requires DistinctNames(images) && n <= |images|
    ensures DistinctKeys(Items(images, n))
  {
    hide ItemsOf;
    if n > 0 {
      ItemsDistinct(images, n - 1);
      var before, more := Items(images, n - 1), ItemsOf(images[n - 1]);
      ImageDistinct(images[n - 1]);
      forall i, j | 0 <= i < |before| && 0 <= j < |more| ensures OtherKey(before[i], more[j]) {
        ItemsApart(images, n - 1, before[i], more[j]);
      }
    }
  }

  lemma ItemsApart(images: seq<Image>, n: nat, a: Item, b: Item)
    requires DistinctNames(images) && n < |images| && a in Items(images, n) && b in ItemsOf(images[n])
    ensures OtherKey(a, b)
  {
    var k := ItemFrom(images, n, a);
    ItemOfImage(images[n], b);
    hide ItemsOf;
    assert images[k].name != images[n].name;
  }

  lemma ImageDistinct(im: Image)
    ensures DistinctKeys(ItemsOf(im))
  {
    ScanAscending(im.lines, |im.lines|);
    LooseAscending(Scan(im.lines));
    hide FromLines;
    hide Loose;
    hide Critical;
  }

  lemma {:induction false} AtMostOnce(s: seq<Item>, x: Item)
    requires DistinctKeys(s)
    ensures multiset(s)[x] <= 1
  {
    if s != [] {
      AtMostOnce(s[1..], x);
      assert s == [s[0]] + s[1..];
    }
  }

  lemma TwiceCounts(s: seq<Item>, i: nat, j: nat)
    requires i < j < |s| && s[i] == s[j]
    ensures multiset(s)[s[i]] >= 2
  {
    assert s == s[..i + 1] + s[i + 1..];
    assert s[i] in s[..i + 1] by { assert s[..i + 1][i] == s[i]; }
    assert s[j] in s[i + 1..] by { assert s[i + 1..][j - i - 1] == s[j]; }
  }

  lemma WorkDistinct(images: seq<Image>)
    requires DistinctNames(images)
    ensures DistinctKeys(WorkOf(images))
  {
    hide Items;
    hide Sort;
    hide OtherKey;
    hide DistinctNames;
    var all, work := Items(images, |images|), WorkOf(images);
    ItemsDistinct(images, |images|);
    SortBag(all, LeItem);
    SameElements(work, all);
    forall i, j | 0 <= i < j < |work| ensures OtherKey(work[i], work[j]) {
      if !OtherKey(work[i], work[j]) {
        SameKey(images, work[i], work[j]);
        TwiceCounts(work, i, j);
        AtMostOnce(all, work[i]);
      }
    }
  }

  lemma SameKey(images: seq<Image>, a: Item, b: Item)
    requires DistinctNames(images) && a in Items(images, |images|) && b in Items(images, |images|) && !OtherKey(a, b)
    ensures a == b
  {
    hide FromRef;
    hide Strip;
    hide Items;
    hide Critical;
    hide Pinned;
    hide DistinctNames;
    var i := ItemFrom(images, |images|, a);
    var j := ItemFrom(images, |images|, b);
    SameName(images, i, j);
  }

  lemma SameName(images: seq<Image>, i: nat, j: nat)
    requires DistinctNames(images) && i < |images| && j < |images| && images[i].name == images[j].name
    ensures i == j
  {
  }

  lemma {:induction false} ProposedDistinct(images: seq<Image>, rs: seq<Resolution>, environment: map<string, string>,
                                            work: seq<Item>, n: nat)
    requires DistinctKeys(work) && n <= |work|
    ensures DistinctLines(AllProposed(images, rs, environment, work, n))
  {
    hide Proposed;
    if n > 0 {
      ProposedDistinct(images, rs, environment, work, n - 1);
      OneProposed(images, rs, environment, work[n - 1]);
      var before, more := AllProposed(images, rs, environment, work, n - 1), Proposed(images, rs, environment, work[n - 1]);
      forall k | 0 <= k < |before| ensures more != [] ==> OtherLine(before[k], more[0]) {
        var i := ProposedFor(images, rs, environment, work, n - 1, before[k]);
        assert OtherKey(work[i], work[n - 1]);
      }
      hide AllProposed;
      DistinctAppended(before, more);
    }
  }

  lemma DistinctAppended(a: seq<Proposal>, b: seq<Proposal>)
    requires DistinctLines(a) && |b| <= 1 && forall k | 0 <= k < |a| :: b != [] ==> OtherLine(a[k], b[0])
    ensures DistinctLines(a + b)
  {
    hide OtherLine;
  }

  /**
   The whole pipeline: scan, build the worklist, propose, apply, scan again. The new worklist is
   the old one without exactly the entries that had a proposal, provided that every digest came
   out of the validation and no keyword FROM, as typed, holds the reference behind it.
   */
  lemma PipelineShortens(images: seq<Image>, rs: seq<Resolution>, environment: map<string, string>)
    requires DistinctNames(images) && ProperAnswers(rs)
    requires forall i | 0 <= i < |WorkOf(images)| :: KeywordSpared(images, WorkOf(images)[i])
    ensures var work := WorkOf(images);
            var ps := AllProposed(images, rs, environment, work, |work|);
            multiset(work) == multiset(WorkOf(ApplyAll(images, ps))) + multiset(ItemsIn(ps))
  {
    hide Proposed;
    hide WorkOf;
    hide KeywordSpared;
    hide ProperAnswers;
    hide DistinctNames;
    hide DistinctLines;
    hide DistinctKeys;
    hide ApplyAll;
    var work := WorkOf(images);
    var ps := AllProposed(images, rs, environment, work, |work|);
    hide AllProposed;
    WorkDistinct(images);
    ProposedDistinct(images, rs, environment, work, |work|);
    forall k | 0 <= k < |ps| ensures FitsIn(images, ps[k]) {
      var i := ProposedFor(images, rs, environment, work, |work|, ps[k]);
      ProposedFits(images, rs, environment, work[i], ps[k]);
    }
    ApplyAllShortens(images, ps);
  }
}
