/** Which entries of the worklist get a proposal, and what their new line is. */
module ProposalTheorem {
  import opened Text
  import opened Lines
  import opened Pinning
  import opened PinningTheorem
  import opened Sorting
  import opened Worklist
  import opened WorklistTheorem
  import opened Proposals

  predicate AnswersFor(r: Resolution, item: Item) {
    r.image == item.image && r.line == item.line
  }

  /** The resolution with number j is the last one for the entry. */
  predicate LastAnswer(rs: seq<Resolution>, j: nat, item: Item) {
    j < |rs| && AnswersFor(rs[j], item) && forall k | j < k < |rs| :: !AnswersFor(rs[k], item)
  }

  /** A resolution by a list of images that has one for Linux. */
  predicate ListsLinux(r: Resolution) {
    && r.isIndex
    && (Has(r.mediaType, "manifest.list") || Has(r.mediaType, "image.index"))
    && exists platform :: platform in r.platforms && "linux/" <= platform
  }

  /** The reference can be pinned: no digest yet, and nothing in it that a build argument could change. */
  predicate Pinnable(reference: string, expanded: Option<string>) {
    '@' !in reference &&
    match expanded
    case None => '$' !in reference
    case Some(text) => '@' !in text && !HasVariable(reference)
  }

  /** The line of an entry starts with the word and one plain blank. */
  predicate PlainFrom(images: seq<Image>, item: Item) {
    var lines := LinesOf(images, item.image);
    1 <= item.line <= |lines| && "FROM " <= Upper(LStrip(lines[item.line - 1]))
  }

  /** All that a proposal for the entry takes. */
  ghost predicate Accepted(images: seq<Image>, rs: seq<Resolution>, item: Item) {
    exists j: nat :: LastAnswer(rs, j, item) && rs[j].status == "resolved" && ListsLinux(rs[j]) &&
      ValidateDigest(rs[j].digest).Some? && Pinnable(item.reference, rs[j].expanded) && PlainFrom(images, item)
  }

  lemma {:induction false} LastIsAnswer(rs: seq<Resolution>, n: nat, j: nat, item: Item)
    requires j < n <= |rs| && AnswersFor(rs[j], item) && forall k | j < k < n :: !AnswersFor(rs[k], item)
    ensures Answer(rs, n, item) == Some(rs[j])
  {
    if j < n - 1 {
      assert !AnswersFor(rs[n - 1], item);
      LastIsAnswer(rs, n - 1, j, item);
    }
  }

  lemma {:induction false} AnswerIsLast(rs: seq<Resolution>, n: nat, item: Item) returns (j: nat)
    requires n <= |rs|
    ensures Answer(rs, n, item).Some? ==>
              j < n && Answer(rs, n, item) == Some(rs[j]) && AnswersFor(rs[j], item) &&
              forall k | j < k < n :: !AnswersFor(rs[k], item)
  {
    if n == 0 {
      j := 0;
    } else if rs[n - 1].image == item.image && rs[n - 1].line == item.line {
      j := n - 1;
    } else {
      j := AnswerIsLast(rs, n - 1, item);
    }
  }

  lemma EligibleIs(r: Resolution)
    ensures Eligible(r) <==> ListsLinux(r)
  {
    hide Has;
    if i :| 0 <= i < |r.platforms| && "linux/" <= r.platforms[i] {
      assert r.platforms[i] in r.platforms;
    }
  }

  // --- The new line -------------------------------------------------------------------------------

  /** The first occurrence of w, which is not empty. */
  predicate FirstAt(s: string, pre: string, w: string, post: string) {
    s == pre + (w + post) && w != "" && !Has(pre + w[..|w| - 1], w)
  }

  lemma {:induction false} ReplacedFirst(s: string, w: string, put: string) returns (pre: string, post: string)
    requires Has(s, w) && w != ""
    ensures FirstAt(s, pre, w, post) && ReplaceFirst(s, w, put) == pre + (put + post)
  {
    hide Has;
    hide ReplaceFirst;
    if w <= s {
      pre, post := "", s[|w|..];
      TooShort(w);
      ReplacedHere(s, w, put);
      assert "" + w[..|w| - 1] == w[..|w| - 1] && "" + (w + post) == s && "" + (put + post) == put + post;
    } else {
      var pre' := "";
      ReplacedLater(s, w, put);
      pre', post := ReplacedFirst(s[1..], w, put);
      pre := [s[0]] + pre';
      StillFirst(s, pre', w, post);
      assert [s[0]] + (pre' + (put + post)) == pre + (put + post);
    }
  }

  lemma ReplacedHere(s: string, w: string, put: string)
    requires w <= s
    ensures ReplaceFirst(s, w, put) == put + s[|w|..]
  {
  }

  lemma ReplacedLater(s: string, w: string, put: string)
    requires Has(s, w) && !(w <= s)
    ensures s != "" && Has(s[1..], w) && ReplaceFirst(s, w, put) == [s[0]] + ReplaceFirst(s[1..], w, put)
  {
  }

  lemma TooShort(w: string)
    requires w != ""
    ensures !Has(w[..|w| - 1], w)
  {
    if Has(w[..|w| - 1], w) {
      HasShort(w[..|w| - 1], w);
    }
  }

  lemma StillFirst(s: string, pre: string, w: string, post: string)
    requires s != "" && !(w <= s) && FirstAt(s[1..], pre, w, post)
    ensures FirstAt(s, [s[0]] + pre, w, post)
  {
    var long := [s[0]] + pre + w[..|w| - 1];
    assert s == [s[0]] + pre + (w + post);
    assert long[1..] == pre + w[..|w| - 1];
    assert long == s[..|long|];
    assert long[..|w|] == s[..|w|];
  }

  /** The line of an entry holds its reference. */
  lemma LineHolds(raw: string, reference: string)
    requires FromRef(Strip(raw)) == Some(reference)
    ensures Has(raw, reference) && reference != ""
  {
    var line := Strip(raw);
    hide Strip;
    var kw, gap, tail := FromShape(line);
    hide FromRef;
    assert line == (kw + gap) + (reference + tail);
    HasInside(kw + gap, reference, tail);
    hide Has;
    StripHolds(raw, reference);
  }

  lemma StripHolds(raw: string, w: string)
    requires Has(Strip(raw), w) && w != ""
    ensures Has(raw, w)
  {
    HasShort(Strip(raw), w);
    var pre, post := StripParts(raw);
    hide Has;
    hide Strip;
    HasPart(pre, Strip(raw), post, w);
  }

  /** What is proposed for an entry of the worklist, with the resolution for it. */
  lemma OneExactly(images: seq<Image>, rs: seq<Resolution>, environment: map<string, string>, item: Item, r: Resolution)
    requires DistinctNames(images) && item in WorkOf(images) && Answer(rs, |rs|, item) == Some(r)
    ensures Proposed(images, rs, environment, item) != [] <==>
            r.status == "resolved" && ListsLinux(r) && ValidateDigest(r.digest).Some? &&
            Pinnable(item.reference, r.expanded) && PlainFrom(images, item)
  {
    hide ListsLinux;
    hide ValidateDigest;
    hide Answer;
    hide WorkOf;
    hide LinesOf;
    hide FromRef;
    hide Strip;
    EligibleIs(r);
    hide Eligible;
    var lines := LinesOf(images, item.image);
    ItemLine(images, item);
    LineHolds(lines[item.line - 1], item.reference);
    PatchExactly(lines, item.line, item.reference, r.digest, r.expanded, environment);
  }

  lemma ItemLine(images: seq<Image>, item: Item)
    requires DistinctNames(images) && item in WorkOf(images)
    ensures var lines := LinesOf(images, item.image);
            1 <= item.line <= |lines| && FromRef(Strip(lines[item.line - 1])) == Some(item.reference)
  {
    hide Critical;
    hide Items;
    hide FromRef;
    hide Strip;
    hide Pinned;
    hide LinesOf;
    SortBag(Items(images, |images|), LeItem);
    SameElements(WorkOf(images), Items(images, |images|));
    hide WorkOf;
    var i := ItemFrom(images, |images|, item);
    LinesOfImage(images, i);
  }

  /** When a patch is proposed for a line that holds the reference; it is never empty. */
  lemma PatchExactly(lines: seq<string>, number: nat, reference: string, digest: string, expanded: Option<string>,
                     environment: map<string, string>)
    requires 1 <= number <= |lines| && reference != "" && Has(lines[number - 1], reference)
    ensures var p := ProposePatch(lines, number, reference, digest, expanded, environment);
            && (p.Some? <==> ValidateDigest(digest).Some? && Pinnable(reference, expanded) && "FROM " <= Upper(LStrip(lines[number - 1])))
            && (p.Some? ==> p.value != "")
  {
    ArgumentsNeverMatter(lines, number, reference, digest, environment);
    if '$' !in reference {
      NoVariable(reference);
    }
    var line := lines[number - 1];
    var put := PinnedRef(reference, digest);
    var pre, post := ReplacedFirst(line, reference, put);
    hide FirstAt;
    hide ValidateDigest;
    hide ReplaceFirst;
    hide Has;
    hide HasVariable;
    hide ExpandReference;
    hide Upper;
    hide LStrip;
    PutLonger(pre, reference, digest, post);
    assert line == pre + (reference + post);
  }

  lemma PutLonger(pre: string, reference: string, digest: string, post: string)
    ensures |pre + (PinnedRef(reference, digest) + post)| > |pre + (reference + post)|
  {
  }

  // --- The list -------------------------------------------------------------------------------------

  lemma AcceptedIs(images: seq<Image>, rs: seq<Resolution>, environment: map<string, string>, item: Item)
    requires DistinctNames(images) && item in WorkOf(images)
    ensures Proposed(images, rs, environment, item) != [] <==> Accepted(images, rs, item)
  {
    hide WorkOf;
    hide DistinctNames;
    hide ListsLinux;
    hide ValidateDigest;
    hide Pinnable;
    hide PlainFrom;
    hide LinesOf;
    hide Eligible;
    hide ProposePatch;
    var j := AnswerIsLast(rs, |rs|, item);
    if Answer(rs, |rs|, item).Some? {
      OneExactly(images, rs, environment, item, rs[j]);
      assert LastAnswer(rs, j, item);
      hide Proposed;
      if k: nat :| LastAnswer(rs, k, item) {
        LastIsAnswer(rs, |rs|, k, item);
      }
      forall k: nat | LastAnswer(rs, k, item) ensures k == j {
        OnlyOneLast(rs, j, k, item);
      }
    } else {
      forall k: nat | LastAnswer(rs, k, item) ensures false {
        LastIsAnswer(rs, |rs|, k, item);
      }
    }
  }

  lemma OnlyOneLast(rs: seq<Resolution>, j: nat, k: nat, item: Item)
    requires LastAnswer(rs, j, item) && LastAnswer(rs, k, item)
    ensures j == k
  {
    hide AnswersFor;
  }

  function CountFor(ps: seq<Proposal>, item: Item): nat {
    if ps == [] then 0 else (if ps[0].item == item then 1 else 0) + CountFor(ps[1..], item)
  }

  lemma {:induction false} CountIs(ps: seq<Proposal>, item: Item)
    ensures CountFor(ps, item) == multiset(ItemsIn(ps))[item]
  {
    if ps != [] {
      CountIs(ps[1..], item);
      assert ItemsIn(ps) == [ps[0].item] + ItemsIn(ps[1..]);
    }
  }

  lemma {:induction false} CountInserted(x: Proposal, s: seq<Proposal>, item: Item)
    ensures CountFor(Insert(x, s, LeKey), item) == CountFor([x] + s, item)
  {
    hide LeKey;
    assert ([x] + s)[1..] == s;
    if s != [] && !LeKey(x, s[0]) {
      CountInserted(x, s[1..], item);
      assert ([x] + s[1..])[1..] == s[1..];
      var r := [s[0]] + Insert(x, s[1..], LeKey);
      assert r[1..] == Insert(x, s[1..], LeKey);
    }
  }

  /** Sorting changes no count. */
  lemma {:induction false} CountSorted(s: seq<Proposal>, item: Item)
    ensures CountFor(Sort(s, LeKey), item) == CountFor(s, item)
  {
    hide LeKey;
    if s != [] {
      CountSorted(s[1..], item);
      CountInserted(s[0], Sort(s[1..], LeKey), item);
      var r := [s[0]] + Sort(s[1..], LeKey);
      assert r[1..] == Sort(s[1..], LeKey);
    }
  }

  /** How often an entry has a proposal: as often as it is in the worklist, if it is accepted. */
  lemma {:induction false} CountProposed(images: seq<Image>, rs: seq<Resolution>, environment: map<string, string>,
                                         work: seq<Item>, n: nat, item: Item)
    requires DistinctNames(images) && item in WorkOf(images) && n <= |work|
    ensures multiset(ItemsIn(AllProposed(images, rs, environment, work, n)))[item] ==
            if Accepted(images, rs, item) then multiset(work[..n])[item] else 0
  {
    hide WorkOf;
    hide DistinctNames;
    hide Proposed;
    hide Accepted;
    if n > 0 {
      CountProposed(images, rs, environment, work, n - 1, item);
      AcceptedIs(images, rs, environment, item);
      OneProposed(images, rs, environment, work[n - 1]);
      var before, more := AllProposed(images, rs, environment, work, n - 1), Proposed(images, rs, environment, work[n - 1]);
      assert ItemsIn(before + more) == ItemsIn(before) + ItemsIn(more);
      assert work[..n] == work[..n - 1] + [work[n - 1]];
      assert more != [] ==> ItemsIn(more) == [work[n - 1]];
    }
  }

  /**
   The list holds a proposal for an entry exactly when its last resolution is a proper index with
   an image for Linux, its reference can be pinned, and its line starts with FROM and a plain
   blank; and never more than one.
   */
  lemma ProposedExactly(images: seq<Image>, rs: seq<Resolution>, environment: map<string, string>, work: seq<Item>, item: Item)
    requires DistinctNames(images) && item in WorkOf(images) && item in work && DistinctKeys(work)
    ensures CountFor(Generated(images, rs, environment, work), item) == if Accepted(images, rs, item) then 1 else 0
  {
    hide WorkOf;
    hide DistinctNames;
    hide Accepted;
    hide AllProposed;
    hide Sort;
    CountProposed(images, rs, environment, work, |work|, item);
    assert work[..|work|] == work;
    AtMostOnce(work, item);
    var all := AllProposed(images, rs, environment, work, |work|);
    CountSorted(all, item);
    CountIs(all, item);
  }

  /** A proposal in the list, and its new line: the old one with the digest put behind the reference. */
  lemma ProposedLine(images: seq<Image>, rs: seq<Resolution>, environment: map<string, string>, work: seq<Item>, p: Proposal)
    returns (j: nat, pre: string, post: string)
    requires DistinctNames(images) && p.item in WorkOf(images) && p in Generated(images, rs, environment, work)
    ensures p.item in work && LastAnswer(rs, j, p.item) && rs[j].status == "resolved" && ListsLinux(rs[j])
    ensures var lines := LinesOf(images, p.item.image);
            && 1 <= p.item.line <= |lines| && FirstAt(lines[p.item.line - 1], pre, p.item.reference, post)
            && p.patched == pre + (p.item.reference + ("@" + rs[j].digest) + post)
  {
    hide WorkOf;
    hide DistinctNames;
    hide Sort;
    hide LeKey;
    hide ListsLinux;
    hide Proposed;
    hide AllProposed;
    hide LinesOf;
    hide FirstAt;
    hide FromRef;
    hide Strip;
    hide ReplaceFirst;
    InAll(images, rs, environment, work, p);
    var i := ProposedFor(images, rs, environment, work, |work|, p);
    ItemLine(images, p.item);
    j := AnswerIsLast(rs, |rs|, p.item);
    var line := LinesOf(images, p.item.image)[p.item.line - 1];
    ProposedParts(images, rs, environment, p);
    LineHolds(line, p.item.reference);
    pre, post := ReplacedFirst(line, p.item.reference, PinnedRef(p.item.reference, rs[j].digest));
    Regroup4(pre, p.item.reference, "@" + rs[j].digest, post);
  }

  lemma Regroup4(a: string, b: string, c: string, d: string)
    ensures a + (b + c + d) == a + (b + c) + d
  {
  }

  lemma InAll(images: seq<Image>, rs: seq<Resolution>, environment: map<string, string>, work: seq<Item>, p: Proposal)
    requires p in Generated(images, rs, environment, work)
    ensures p in AllProposed(images, rs, environment, work, |work|)
  {
    hide AllProposed;
    hide Sort;
    hide LeKey;
    var all := AllProposed(images, rs, environment, work, |work|);
    SortBag(all, LeKey);
    SameElements(Sort(all, LeKey), all);
  }

  lemma ProposedParts(images: seq<Image>, rs: seq<Resolution>, environment: map<string, string>, p: Proposal)
    requires p in Proposed(images, rs, environment, p.item)
    ensures Answer(rs, |rs|, p.item).Some?
    ensures var r, lines := Answer(rs, |rs|, p.item).value, LinesOf(images, p.item.image);
            && r.status == "resolved" && ListsLinux(r) && 1 <= p.item.line <= |lines|
            && p.patched == ReplaceFirst(lines[p.item.line - 1], p.item.reference, PinnedRef(p.item.reference, r.digest))
  {
    hide Answer;
    hide Eligible;
    hide ListsLinux;
    hide LinesOf;
    hide ReplaceFirst;
    hide ProposePatch;
    var r := Answer(rs, |rs|, p.item).value;
    EligibleIs(r);
    PatchIsReplacement(LinesOf(images, p.item.image), p.item.line, p.item.reference, r.digest, r.expanded, environment);
  }

  /** An entry whose keyword is followed by a tab is in the worklist, and has no proposal whatever is resolved. */
  lemma TabIsNeverPinned(images: seq<Image>, rs: seq<Resolution>, environment: map<string, string>, work: seq<Item>, item: Item)
    requires DistinctNames(images) && item in WorkOf(images) && item in work && DistinctKeys(work)
    requires 1 <= item.line <= |LinesOf(images, item.image)|
    requires var line := LStrip(LinesOf(images, item.image)[item.line - 1]); |line| > 4 && line[4] == '\t'
    ensures CountFor(Generated(images, rs, environment, work), item) == 0
  {
    TabIsNoBlank(LStrip(LinesOf(images, item.image)[item.line - 1]));
    NotPlainFrom(images, item);
    hide PlainFrom;
    NeedsPlainFrom(images, rs, item);
    hide *;
    ProposedExactly(images, rs, environment, work, item);
  }

  lemma NotPlainFrom(images: seq<Image>, item: Item)
    requires 1 <= item.line <= |LinesOf(images, item.image)|
    ensures PlainFrom(images, item) <==> "FROM " <= Upper(LStrip(LinesOf(images, item.image)[item.line - 1]))
  {
    hide LinesOf;
    hide LStrip;
  }

  lemma NeedsPlainFrom(images: seq<Image>, rs: seq<Resolution>, item: Item)
    ensures Accepted(images, rs, item) ==> PlainFrom(images, item)
  {
    hide ListsLinux;
    hide Pinnable;
    hide ValidateDigest;
    hide PlainFrom;
  }

  lemma TabIsNoBlank(line: string)
    requires |line| > 4 && line[4] == '\t'
    ensures !("FROM " <= Upper(line))
  {
    assert Upper(line)[4] == '\t' && "FROM "[4] == ' ';
  }

  // --- What is in the worklist ------------------------------------------------------------------------

  /** The entry is for a FROM line, not pinned, of a critical image. */
  ghost predicate Pending(images: seq<Image>, item: Item) {
    exists i :: 0 <= i < |images| && PendingIn(images[i], item)
  }

  predicate PendingIn(im: Image, item: Item) {
    && im.name == item.image && CriticalTier(im.tier) && 1 <= item.line <= |im.lines|
    && FromRef(Strip(im.lines[item.line - 1])) == Some(item.reference) && !Pinned(item.reference)
  }

  predicate CriticalTier(tier: string) {
    Lower(Strip(tier)) == "1" || Lower(Strip(tier)) == "critical"
  }

  lemma CriticalIs(im: Image)
    ensures Critical(im) <==> CriticalTier(im.tier)
  {
    hide Strip;
  }

  lemma {:induction false} EntryIn(lines: seq<string>, n: nat, number: nat)
    requires 1 <= number <= n <= |lines| && FromRef(Strip(lines[number - 1])).Some?
    ensures var reference := FromRef(Strip(lines[number - 1])).value;
            Entry(number, reference, Pinned(reference)) in FromLines(lines, n)
  {
    hide FromRef;
    hide Strip;
    hide Pinned;
    hide EntryOf;
    EntryAlone(lines[number - 1], number);
    if number < n {
      EntryIn(lines, n - 1, number);
    }
  }

  lemma {:induction false} LooseIn(es: seq<Entry>, e: Entry)
    requires e in es && !e.pinned
    ensures e in Loose(es)
  {
    if e != es[0] {
      LooseIn(es[1..], e);
    }
  }

  lemma {:induction false} AmongItems(images: seq<Image>, n: nat, i: nat, item: Item)
    requires i < n <= |images| && item in ItemsOf(images[i])
    ensures item in Items(images, n)
  {
    hide ItemsOf;
    if i < n - 1 {
      AmongItems(images, n - 1, i, item);
    }
  }

  lemma PendingItem(im: Image, item: Item)
    requires PendingIn(im, item)
    ensures item in ItemsOf(im)
  {
    CriticalIs(im);
    hide Critical;
    hide CriticalTier;
    EntryIn(im.lines, |im.lines|, item.line);
    hide FromRef;
    hide Strip;
    hide Pinned;
    hide FromLines;
    var e := Entry(item.line, item.reference, false);
    LooseIn(Scan(im.lines), e);
    hide Loose;
    var es := Unpinned(im.lines);
    var k :| 0 <= k < |es| && es[k] == e;
    assert Named(im.name, es)[k] == item;
  }

  /** The worklist holds exactly the FROM lines of critical images that are not pinned. */
  lemma WorkExactly(images: seq<Image>, item: Item)
    ensures item in WorkOf(images) <==> Pending(images, item)
  {
    hide FromRef;
    hide Strip;
    hide Pinned;
    hide Items;
    hide CriticalTier;
    SortBag(Items(images, |images|), LeItem);
    SameElements(WorkOf(images), Items(images, |images|));
    hide WorkOf;
    hide Critical;
    if item in Items(images, |images|) {
      var i := ItemFrom(images, |images|, item);
      CriticalIs(images[i]);
    }
    if i :| 0 <= i < |images| && PendingIn(images[i], item) {
      PendingItem(images[i], item);
      AmongItems(images, |images|, i, item);
    }
  }

  // --- The order of the worklist ----------------------------------------------------------------------

  /** a comes before b in a dictionary: it is a proper prefix, or smaller where they first differ. */
  ghost predicate Lexically(a: string, b: string) {
    exists k: nat :: DifferAt(a, b, k) && (k == |a| || (k < |b| && a[k] < b[k]))
  }

  predicate DifferAt(a: string, b: string, k: nat) {
    k <= |a| && k <= |b| && a[..k] == b[..k] && a != b && (k == |a| || k == |b| || a[k] != b[k])
  }

  lemma {:induction false} FirstDifference(a: string, b: string) returns (k: nat)
    requires a != b
    ensures DifferAt(a, b, k)
    ensures CompareText(a, b) < 0 <==> k == |a| || (k < |b| && a[k] < b[k])
  {
    if a == "" || b == "" || a[0] != b[0] {
      k := 0;
    } else {
      assert a == [a[0]] + a[1..] && b == [b[0]] + b[1..];
      var j := FirstDifference(a[1..], b[1..]);
      k := j + 1;
      assert a[..k] == [a[0]] + a[1..][..j] && b[..k] == [b[0]] + b[1..][..j];
    }
  }

  lemma LeIsLexical(a: string, b: string)
    ensures LeText(a, b) ==> a == b || Lexically(a, b)
  {
    TextOrder(a, b);
    if a != b {
      var k := FirstDifference(a, b);
    }
  }

  /** The worklist is in the order of the images' names, and for one image in the order of the lines. */
  lemma WorkInOrder(images: seq<Image>, i: nat, j: nat)
    requires i < j < |WorkOf(images)|
    ensures var a, b := WorkOf(images)[i], WorkOf(images)[j];
            if a.image != b.image then Lexically(a.image, b.image) else a.line <= b.line
  {
    ItemsTotal();
    SortOrdered(Items(images, |images|), LeItem);
    hide Items;
    hide Sort;
    var a, b := WorkOf(images)[i], WorkOf(images)[j];
    assert LeItem(a, b);
    LeIsLexical(a.image, b.image);
  }
}
