/** Which runs of the version pipeline settle: what a bump does to the repository named by its manifest. */
module AutoVersionRuns {
  import opened Text
  import opened Manifests
  import opened Semver
  import opened AutoVersion
  import Extract

  // --- When the replacement keeps the repository --------------------------------------------------------

  /** The part of the URL up to the name of the repository. */
  function RepoHead(m: Manifest): string
    requires GithubRepo(m).Some?
  {
    (if Secure <= RepoUrl(m) then Secure else Plain) + GithubRepo(m).value
  }

  /** The version does not occur in that part. */
  predicate RepoSpared(m: Manifest)
    requires GithubRepo(m).Some?
  {
    m.Version() != "" && Without(m.Version(), '/') && !Has(RepoHead(m), m.Version())
  }

  lemma {:induction false} ReplaceBehind(head: string, rest: string, w: string, put: string)
    requires w != "" && !Has(head, w) && (rest == "" || (rest[0] == '/' && Without(w, '/')))
    ensures ReplaceAll(head + rest, w, put) == head + ReplaceAll(rest, w, put)
  {
    hide ReplaceAll;
    hide Has;
    if head == "" {
      assert head + rest == rest;
    } else {
      HasNot(head, w);
      NotInto(head, rest, w);
      ReplaceBehind(head[1..], rest, w, put);
      assert head + rest == [head[0]] + (head[1..] + rest);
      ReplaceStep(head[0], head[1..] + rest, w, put);
      var more := ReplaceAll(rest, w, put);
      assert [head[0]] + (head[1..] + more) == head + more;
    }
  }

  lemma HasNot(s: string, w: string)
    requires s != "" && !Has(s, w)
    ensures !(w <= s) && !Has(s[1..], w)
  {
  }

  lemma NotInto(head: string, rest: string, w: string)
    requires !(w <= head) && (rest == "" || (rest[0] == '/' && Without(w, '/')))
    ensures !(w <= head + rest)
  {
    if rest == "" {
      assert head + rest == head;
    } else if w <= head + rest {
      SlashBetween(head, rest, w);
    }
  }

  lemma SlashBetween(head: string, rest: string, w: string)
    requires rest != "" && w <= head + rest
    ensures w <= head || (|w| > |head| && w[|head|] == rest[0])
  {
    assert w == (head + rest)[..|w|];
  }

  /** The first two parts of a path, and what stands behind them. */
  lemma {:induction false} SplitShape(s: string, c: char) returns (rest: string)
    ensures s == Split(s, c)[0] + rest && Without(Split(s, c)[0], c) && (rest == "" || rest[0] == c)
    ensures rest == "" ==> |Split(s, c)| == 1
    ensures rest != "" ==> Split(s, c)[1..] == Split(rest[1..], c)
  {
    if s == "" {
      rest := "";
    } else if s[0] == c {
      rest := s;
    } else {
      rest := SplitShape(s[1..], c);
      var r := Split(s[1..], c);
      assert ([[s[0]] + r[0]] + r[1..])[1..] == r[1..];
      assert s == [s[0]] + s[1..];
    }
  }

  lemma SplitOf(part: string, rest: string, c: char)
    requires Without(part, c) && (rest == "" || rest[0] == c)
    ensures Split(part + rest, c)[0] == part
    ensures Split(part + rest, c)[1..] == if rest == "" then [] else Split(rest[1..], c)
  {
    if rest == "" {
      assert part + rest == part;
      SplitWhole(part, c);
    } else {
      assert rest == [c] + rest[1..];
      SplitPart(part, rest[1..], c);
    }
  }

  /** A URL below a prefix: owner, repository, and the rest of the path. */
  lemma UrlShape(url: string, prefix: string) returns (repo: string, rest: string)
    requires AfterPrefix(url, prefix).Some?
    ensures AfterPrefix(url, prefix) == Some(repo) && url == prefix + (repo + rest) && (rest == "" || rest[0] == '/')
  {
    var path := url[|prefix|..];
    var parts := Split(path, '/');
    var rest1 := SplitShape(path, '/');
    var rest2 := SplitShape(rest1[1..], '/');
    repo, rest := parts[0] + ("/" + parts[1]), rest2;
    assert parts[1] == parts[1..][0];
    assert rest1 == "/" + rest1[1..];
    PathRegroup(parts[0], parts[1], rest2);
  }

  lemma PathRegroup(owner: string, name: string, rest: string)
    ensures owner + ("/" + (name + rest)) == owner + ("/" + name) + rest
  {
  }

  /** Another rest of the path leaves owner and repository. */
  lemma OtherRest(url: string, prefix: string, rest: string, rest': string)
    requires AfterPrefix(url, prefix).Some? && url == prefix + (AfterPrefix(url, prefix).value + rest)
    requires (rest == "" || rest[0] == '/') && (rest' == "" || rest'[0] == '/')
    ensures AfterPrefix(prefix + (AfterPrefix(url, prefix).value + rest'), prefix) == AfterPrefix(url, prefix)
  {
    var path := url[|prefix|..];
    var parts := Split(path, '/');
    var rest1 := SplitShape(path, '/');
    var rest2 := SplitShape(rest1[1..], '/');
    assert parts[1] == parts[1..][0];
    var owner, name := parts[0], parts[1];
    PathRegroup(owner, name, rest');
    var url' := prefix + (AfterPrefix(url, prefix).value + rest');
    assert url'[|prefix|..] == owner + ("/" + (name + rest'));
    var tail := "/" + (name + rest');
    SplitOf(owner, tail, '/');
    assert tail[1..] == name + rest';
    SplitOf(name, rest', '/');
    var parts' := Split(owner + tail, '/');
    assert parts'[1] == parts'[1..][0];
  }

  lemma PrefixesApart(url: string)
    ensures !(Secure <= url && Plain <= url)
  {
    assert Secure[4] == 's' && Plain[4] == ':';
  }

  lemma ReplacedRest(rest: string, w: string, put: string)
    requires w != "" && Without(w, '/') && (rest == "" || rest[0] == '/')
    ensures var r := ReplaceAll(rest, w, put); r == "" || r[0] == '/'
  {
    assert rest != "" ==> !(w <= rest);
  }

  lemma UrlKept(url: string, prefix: string, w: string, put: string)
    requires AfterPrefix(url, prefix).Some? && !Has(prefix + AfterPrefix(url, prefix).value, w)
    requires w != "" && Without(w, '/')
    ensures var url' := ReplaceAll(url, w, put);
            prefix <= url' && AfterPrefix(url', prefix) == AfterPrefix(url, prefix)
  {
    hide Has;
    var repo, rest := UrlShape(url, prefix);
    hide AfterPrefix;
    assert url == prefix + repo + rest && (forall x: string :: prefix + (repo + x) == prefix + repo + x);
    ReplaceBehind(prefix + repo, rest, w, put);
    ReplacedRest(rest, w, put);
    OtherRest(url, prefix, rest, ReplaceAll(rest, w, put));
  }

  /** A bump keeps the repository when the old version does not occur in the URL up to its name. */
  lemma RepoKept(m: Manifest, latest: string)
    requires GithubRepo(m).Some? && RepoSpared(m)
    ensures GithubRepo(Updated(m, latest)) == GithubRepo(m)
  {
    hide Has;
    hide ReplaceAll;
    var url := RepoUrl(m);
    PrefixesApart(url);
    var url' := ReplaceAll(url, m.Version(), latest);
    PrefixesApart(url');
    hide Secure;
    hide Plain;
    UrlKept(url, if Secure <= url then Secure else Plain, m.Version(), latest);
  }

  // --- When exactly the repository is kept ------------------------------------------------------------

  /** Another word in place of one that occurs leaves no text as it was. */
  lemma {:induction false} ReplaceUnchanged(s: string, w: string, put: string)
    requires w != "" && w != put
    ensures ReplaceAll(s, w, put) == s <==> !Has(s, w)
    ensures Has(s, w) && |put| < |w| ==> |ReplaceAll(s, w, put)| < |s|
    ensures Has(s, w) && |put| > |w| ==> |ReplaceAll(s, w, put)| > |s|
    decreases |s|
  {
    if w <= s {
      var t := s[|w|..];
      ReplaceUnchanged(t, w, put);
      var r := put + ReplaceAll(t, w, put);
      assert r[..|put|] == put && s[..|w|] == w;
    } else if s != "" {
      ReplaceUnchanged(s[1..], w, put);
      var r := [s[0]] + ReplaceAll(s[1..], w, put);
      assert r[1..] == ReplaceAll(s[1..], w, put);
      assert s == [s[0]] + s[1..];
    }
  }

  function ReplaceEach(parts: seq<string>, w: string, put: string): (r: seq<string>)
    ensures |r| == |parts| && forall i | 0 <= i < |parts| :: r[i] == ReplaceAll(parts[i], w, put)
  {
    seq(|parts|, i requires 0 <= i < |parts| => ReplaceAll(parts[i], w, put))
  }

  /** A replacement without the separator takes place part by part. */
  lemma {:induction false} SplitReplace(s: string, c: char, w: string, put: string)
    requires w != "" && Without(w, c) && Without(put, c)
    ensures Split(ReplaceAll(s, w, put), c) == ReplaceEach(Split(s, c), w, put)
    decreases |s|
  {
    if w <= s {
      SplitReplace(s[|w|..], c, w, put);
      SplitHit(s, c, w, put);
    } else if s != "" {
      SplitReplace(s[1..], c, w, put);
      SplitStep(s, c, w, put);
    }
  }

  lemma SplitHit(s: string, c: char, w: string, put: string)
    requires w != "" && Without(w, c) && Without(put, c) && w <= s
    requires Split(ReplaceAll(s[|w|..], w, put), c) == ReplaceEach(Split(s[|w|..], c), w, put)
    ensures Split(ReplaceAll(s, w, put), c) == ReplaceEach(Split(s, c), w, put)
  {
    hide Split;
    hide ReplaceAll;
    var t := s[|w|..];
    assert s == w + t;
    ReplaceHit(t, w, put);
    SplitInFront(w, t, c);
    SplitInFront(put, ReplaceAll(t, w, put), c);
    var parts := Split(t, c);
    ReplaceHit(parts[0], w, put);
    EachFirst(w + parts[0], parts, w, put);
  }

  lemma EachFirst(first: string, parts: seq<string>, w: string, put: string)
    requires parts != []
    ensures ReplaceEach([first] + parts[1..], w, put) == [ReplaceAll(first, w, put)] + ReplaceEach(parts, w, put)[1..]
  {
    hide ReplaceAll;
  }

  lemma EachMore(first: string, parts: seq<string>, w: string, put: string)
    ensures ReplaceEach([first] + parts, w, put) == [ReplaceAll(first, w, put)] + ReplaceEach(parts, w, put)
  {
    hide ReplaceAll;
  }

  lemma ReplaceNothing(w: string, put: string)
    requires w != ""
    ensures ReplaceAll("", w, put) == ""
  {
  }

  lemma SplitStep(s: string, c: char, w: string, put: string)
    requires w != "" && !(w <= s) && s != ""
    requires Split(ReplaceAll(s[1..], w, put), c) == ReplaceEach(Split(s[1..], c), w, put)
    ensures Split(ReplaceAll(s, w, put), c) == ReplaceEach(Split(s, c), w, put)
  {
    hide Split;
    hide ReplaceAll;
    var first, t := s[0], s[1..];
    assert s == [first] + t;
    FirstPartHits(s, c, w);
    ReplaceStep(first, t, w, put);
    SplitFirst(first, t, c);
    SplitFirst(first, ReplaceAll(t, w, put), c);
    var parts := Split(t, c);
    if first == c {
      ReplaceNothing(w, put);
      EachMore("", parts, w, put);
    } else {
      ReplaceStep(first, parts[0], w, put);
      EachFirst([first] + parts[0], parts, w, put);
    }
  }

  lemma SplitFirst(first: char, t: string, c: char)
    ensures Split([first] + t, c) ==
            if first == c then [""] + Split(t, c) else [[first] + Split(t, c)[0]] + Split(t, c)[1..]
  {
    assert ([first] + t)[1..] == t;
  }

  /** A text without the separator goes in front of the first part. */
  lemma {:induction false} SplitInFront(a: string, s: string, c: char)
    requires Without(a, c)
    ensures Split(a + s, c) == [a + Split(s, c)[0]] + Split(s, c)[1..]
  {
    if a == "" {
      assert a + s == s && a + Split(s, c)[0] == Split(s, c)[0];
    } else {
      assert (a + s)[1..] == a[1..] + s;
      SplitInFront(a[1..], s, c);
      assert [a[0]] + (a[1..] + Split(s, c)[0]) == a + Split(s, c)[0];
    }
  }

  lemma FirstPartHits(s: string, c: char, w: string)
    ensures w <= Split(s, c)[0] ==> w <= s
  {
    var rest := SplitShape(s, c);
  }

  /** The scheme and host of the URL. */
  function HostOf(m: Manifest): string {
    if Secure <= RepoUrl(m) then Secure else Plain
  }

  predicate Hosted(prefix: string) {
    prefix == Secure || prefix == Plain
  }

  /** A replacement of a word without c goes on behind c as in front of it. */
  lemma {:induction false} ReplaceAcross(a: string, c: char, b: string, w: string, put: string)
    requires w != "" && Without(w, c)
    ensures ReplaceAll(a + ([c] + b), w, put) == ReplaceAll(a, w, put) + ([c] + ReplaceAll(b, w, put))
    decreases |a|
  {
    var s := a + ([c] + b);
    FrontSplit(a, c, b, w);
    if w <= a {
      assert s[|w|..] == a[|w|..] + ([c] + b);
      ReplaceAcross(a[|w|..], c, b, w, put);
    } else if a == "" {
      assert s[1..] == b;
    } else {
      assert s[1..] == a[1..] + ([c] + b);
      ReplaceAcross(a[1..], c, b, w, put);
    }
  }

  lemma {:induction false} SplitCount(a: string, b: string, c: char)
    ensures |Split(a + b, c)| == |Split(a, c)| + |Split(b, c)| - 1
  {
    if a == "" {
      assert a + b == b;
    } else {
      assert (a + b)[1..] == a[1..] + b;
      SplitCount(a[1..], b, c);
    }
  }

  lemma {:induction false} EndCounts(s: string, c: char)
    requires s != "" && s[|s| - 1] == c
    ensures |Split(s, c)| >= 2
  {
    if |s| > 1 {
      EndCounts(s[1..], c);
    }
  }

  /** Of two texts that end in c and hold it equally often, none is longer than the other but the same. */
  lemma EndsAlike(a: string, b: string, x: string, c: char)
    requires a != "" && a[|a| - 1] == c && b != "" && b[|b| - 1] == c && |Split(a, c)| == |Split(b, c)|
    requires a <= b + x
    ensures a == b
  {
    hide Split;
    PrefixOf(a, b, x);
    if |a| < |b| {
      var y := b[|a|..];
      assert b == a + y;
      SplitCount(a, y, c);
      EndCounts(y, c);
    } else if |b| < |a| {
      var y := a[|b|..];
      assert a == b + y;
      SplitCount(b, y, c);
      EndCounts(y, c);
    }
  }

  lemma PrefixOf(a: string, b: string, x: string)
    requires a <= b + x
    ensures if |a| <= |b| then a == b[..|a|] else b == a[..|b|]
  {
    var n := if |a| <= |b| then |a| else |b|;
    assert (b + x)[..n] == b[..n];
    assert a[..n] == (b + x)[..|a|][..n];
  }

  lemma HostsAlike()
    ensures |Split(Secure, '/')| == |Split(Plain, '/')|
  {
    var path := "//" + GithubHost;
    assert Secure == "https:" + path && Plain == "http:" + path;
    SplitInFront("https:", path, '/');
    SplitInFront("http:", path, '/');
  }

  /** The replaced URL: the host, and what stands behind it, each replaced for itself. */
  lemma HostReplaced(url: string, prefix: string, w: string, put: string)
    requires prefix <= url && prefix != "" && prefix[|prefix| - 1] == '/'
    requires w != "" && Without(w, '/') && Without(put, '/')
    ensures var q := ReplaceAll(prefix, w, put);
            && q != "" && q[|q| - 1] == '/' && |Split(q, '/')| == |Split(prefix, '/')|
            && ReplaceAll(url, w, put) == q + ReplaceAll(url[|prefix|..], w, put)
  {
    hide ReplaceAll;
    hide Split;
    var front, path := prefix[..|prefix| - 1], url[|prefix|..];
    assert url == front + ("/" + path) && prefix == front + ("/" + "");
    ReplaceAcross(front, '/', path, w, put);
    ReplaceAcross(front, '/', "", w, put);
    ReplaceNothing(w, put);
    SplitReplace(prefix, '/', w, put);
    assert ReplaceAll(prefix, w, put) == ReplaceAll(front, w, put) + "/";
  }

  /** Owner and repository of the replaced path. */
  lemma PathReplaced(path: string, w: string, put: string)
    requires |Split(path, '/')| >= 2 && w != "" && Without(w, '/') && Without(put, '/')
    ensures var parts, parts' := Split(path, '/'), Split(ReplaceAll(path, w, put), '/');
            |parts'| >= 2 && parts'[0] + ("/" + parts'[1]) == ReplaceAll(parts[0] + ("/" + parts[1]), w, put)
  {
    SplitReplace(path, '/', w, put);
    var parts := Split(path, '/');
    ReplaceAcross(parts[0], '/', parts[1], w, put);
  }

  lemma UrlReplaced(url: string, prefix: string, w: string, put: string)
    requires AfterPrefix(url, prefix).Some? && prefix != "" && prefix[|prefix| - 1] == '/'
    requires w != "" && Without(w, '/') && Without(put, '/')
    ensures var q, url' := ReplaceAll(prefix, w, put), ReplaceAll(url, w, put);
            && q != "" && q[|q| - 1] == '/' && |Split(q, '/')| == |Split(prefix, '/')| && q <= url'
            && AfterPrefix(url', q) == Some(ReplaceAll(AfterPrefix(url, prefix).value, w, put))
  {
    HostReplaced(url, prefix, w, put);
    PathReplaced(url[|prefix|..], w, put);
    hide Split;
    hide ReplaceAll;
    var q, url' := ReplaceAll(prefix, w, put), ReplaceAll(url, w, put);
    assert url'[|q|..] == ReplaceAll(url[|prefix|..], w, put);
  }

  /**
   When neither version holds a slash, a bump keeps the repository exactly when the old version
   does not occur in owner and repository, and the replacement leaves one of the two hosts.
   */
  lemma RepoKeptExactly(m: Manifest, latest: string)
    requires GithubRepo(m).Some? && m.Version() != "" && m.Version() != latest
    requires Without(m.Version(), '/') && Without(latest, '/')
    ensures GithubRepo(Updated(m, latest)) == GithubRepo(m) <==>
            Hosted(ReplaceAll(HostOf(m), m.Version(), latest)) && !Has(GithubRepo(m).value, m.Version())
  {
    var w := m.Version();
    var url, host, repo := RepoUrl(m), HostOf(m), GithubRepo(m).value;
    PrefixesApart(url);
    HostsAlike();
    HostsEnd();
    hide Secure;
    hide Plain;
    UrlReplaced(url, host, w, latest);
    var q, url' := ReplaceAll(host, w, latest), ReplaceAll(url, w, latest);
    ReplaceUnchanged(repo, w, latest);
    OnlyHost(q, url');
    hide AfterPrefix;
    hide Has;
    hide ReplaceAll;
    hide Split;
    assert RepoUrl(Updated(m, latest)) == url';
    AtHost(q, url');
  }

  lemma AtHost(q: string, url: string)
    requires q <= url && (Secure <= url ==> q == Secure) && (Plain <= url ==> q == Plain)
    ensures RepoOf(url) == if Hosted(q) then AfterPrefix(url, q) else None
  {
    PrefixesApart(url);
    hide Secure;
    hide Plain;
    hide Split;
  }

  lemma HostsEnd()
    ensures Secure != "" && Secure[|Secure| - 1] == '/' && Plain != "" && Plain[|Plain| - 1] == '/'
  {
  }

  /** A URL behind a host-like text is at a host only if the text is that host. */
  lemma OnlyHost(q: string, url: string)
    requires q != "" && q[|q| - 1] == '/' && |Split(q, '/')| == |Split(Secure, '/')| == |Split(Plain, '/')| && q <= url
    ensures Secure <= url ==> q == Secure
    ensures Plain <= url ==> q == Plain
  {
    assert Secure[|Secure| - 1] == '/' && Plain[|Plain| - 1] == '/';
    hide Secure;
    hide Plain;
    hide Split;
    assert url == q + url[|q|..];
    if Secure <= url {
      EndsAlike(Secure, q, url[|q|..], '/');
    }
    if Plain <= url {
      EndsAlike(Plain, q, url[|q|..], '/');
    }
  }

  /** So a run on such manifests reaches its fixpoint at once. */
  lemma SparedRunSettles(images: seq<Image>, w: World, s: Settings)
    requires !s.dryRun
    requires forall i | 0 <= i < |images| :: images[i].stored.Found? && GithubRepo(images[i].stored.manifest).Some? ==>
               RepoSpared(images[i].stored.manifest)
    ensures var disk := AfterRun(images, w, s);
            && Settled(ReportOf(images, w, s, |images|), ReportOf(disk, w, s, |images|))
            && AfterRun(disk, w, s) == disk
  {
    hide RepoSpared;
    forall i | 0 <= i < |images| ensures StaysCurrent(images, i, w, s) {
      SparedStays(images, i, w, s);
    }
    hide StaysCurrent;
    hide AfterRun;
    hide Settled;
    SecondRunSettles(images, w, s);
  }

  lemma SparedStays(images: seq<Image>, i: nat, w: World, s: Settings)
    requires i < |images| && !s.dryRun
    requires images[i].stored.Found? && GithubRepo(images[i].stored.manifest).Some? ==> RepoSpared(images[i].stored.manifest)
    ensures StaysCurrent(images, i, w, s)
  {
    hide GithubRepo;
    hide RepoSpared;
    hide Updated;
    hide IsSafeBump;
    hide TierNum;
    hide TrimV;
    if OutcomeOf(images, i, w, s).Bumped? {
      var m := images[i].stored.manifest;
      var answer := w.latest(i, GithubRepo(m).value);
      RepoKept(m, TrimV(answer.name));
    }
  }

  function Numbered(n: string): Manifest {
    Manifest(Metadata("", n, "", "", Plain + ("o/r" + n), "", "", false), Build("", "", "", false),
             SourceSection("", ""), [], [], map[])
  }

  /** A repository whose name holds the version moves with it, so a second run asks another one. */
  lemma RepoMoves()
    ensures GithubRepo(Numbered("1")) == Some("o/r" + "1") && GithubRepo(Updated(Numbered("1"), "2")) == Some("o/r" + "2")
    ensures Updated(Numbered("1"), "2") == Numbered("2")
  {
    NumberedRepo("1");
    NumberedRepo("2");
    var head := Plain + "o/r";
    PlainWithout();
    PathJoin(Plain, "o/r", "1");
    PathJoin(Plain, "o/r", "2");
    ReplaceEnd(head, "1", "2");
    hide GithubRepo;
    hide ReplaceAll;
    assert RepoUrl(Numbered("1")) == Numbered("1").metadata.source == head + "1";
    assert Updated(Numbered("1"), "2") == Numbered("2");
  }

  /** In a world where o/r1 has release 2 and every other repository release 3 ... */
  const Moving := World((i: nat, repo: string) => if repo == "o/r" + "1" then Tag("2") else Tag("3"), (i: nat) => true)

  const Mover := Image("mover", Found(Numbered("1")))

  const RealRun := Settings(false, false)

  lemma OneDigit(n: string)
    requires |n| == 1 && Digit(n[0])
    ensures TrimV(n) == n && Parse(n) == None
  {
    assert n[1..] == "" && n[..1] == n;
    assert Find(n, '+') == 1 && Find(n, '-') == 1;
    SplitWhole(n, '.');
  }

  lemma MoverBumped(n: string, latest: string)
    requires |n| == 1 && Digit(n[0]) && |latest| == 1 && Digit(latest[0]) && n != latest
    requires Moving.latest(0, "o/r" + n) == Tag(latest)
    ensures OutcomeOf([Image("mover", Found(Numbered(n)))], 0, Moving, RealRun).Bumped?
    ensures OutcomeOf([Image("mover", Found(Numbered(n)))], 0, Moving, RealRun).updated == Updated(Numbered(n), latest)
  {
    NumberedRepo(n);
    DigitsAreSafe(n, latest);
    NumberedRest(n);
    hide GithubRepo;
    hide Updated;
    hide IsSafeBump;
    hide TrimV;
    hide TierNum;
    hide OutcomeOf;
    hide Numbered;
    BumpedWhen([Image("mover", Found(Numbered(n)))], 0, Moving, RealRun, Numbered(n), latest);
  }

  lemma NumberedRest(n: string)
    ensures Numbered(n).Version() == n && !Numbered(n).metadata.deprecated && TierNum(Numbered(n)) == 3
  {
  }

  lemma DigitsAreSafe(n: string, latest: string)
    requires |n| == 1 && Digit(n[0]) && |latest| == 1 && Digit(latest[0])
    ensures IsSafeBump(n, latest, 1).0 && TrimV(latest) == latest
  {
    OneDigit(n);
    OneDigit(latest);
    hide Parse;
    hide TrimV;
  }

  /** ... the second run bumps the moved image once more. */
  lemma SecondRunMoves()
    ensures ReportOf(AfterRun([Mover], Moving, RealRun), Moving, RealRun, 1).bumped == 1
    ensures !Settled(ReportOf([Mover], Moving, RealRun, 1), ReportOf(AfterRun([Mover], Moving, RealRun), Moving, RealRun, 1))
  {
    MoverMoved();
    MoverAsks("2");
    MoverBumped("2", "3");
    BumpedAlone(AfterRun([Mover], Moving, RealRun), Moving, RealRun);
    hide *;
    SettledBumpsNone(ReportOf([Mover], Moving, RealRun, 1), ReportOf(AfterRun([Mover], Moving, RealRun), Moving, RealRun, 1));
  }

  lemma SettledBumpsNone(first: Report, second: Report)
    ensures Settled(first, second) ==> second.bumped == 0
  {
  }

  lemma BumpedAlone(images: seq<Image>, w: World, s: Settings)
    requires |images| == 1 && OutcomeOf(images, 0, w, s).Bumped?
    ensures ReportOf(images, w, s, 1).bumped == 1
  {
    hide OutcomeOf;
    assert ReportOf(images, w, s, 0) == EmptyReport;
  }

  lemma MoverAsks(n: string)
    requires |n| == 1
    ensures Moving.latest(0, "o/r" + n) == Tag(if n == "1" then "2" else "3")
  {
    var repo := "o/r" + n;
    assert repo[3] == n[0] && ("o/r" + "1")[3] == '1';
    assert repo == "o/r" + "1" <==> n[0] == '1';
  }

  lemma MoverMoved()
    ensures AfterRun([Mover], Moving, RealRun) == [Image("mover", Found(Numbered("2")))]
  {
    RepoMoves();
    MoverAsks("1");
    MoverBumped("1", "2");
    hide OutcomeOf;
    hide Numbered;
    hide Updated;
    var disk := AfterRun([Mover], Moving, RealRun);
    assert disk[0] == Stays([Mover], 0, Moving, RealRun);
    hide Stays;
  }

  const Newer := Image("newer", Found(Numbered("2.0.0")))

  const OldRelease := World((i: nat, repo: string) => Tag("1.0.0"), (i: nat) => true)

  /** Version 2.0.0 is overwritten by the release 1.0.0. */
  lemma DowngradeIsWritten()
    ensures AfterRun([Newer], OldRelease, RealRun)[0].stored.Found?
    ensures AfterRun([Newer], OldRelease, RealRun)[0].stored.manifest.Version() == "1.0.0"
  {
    NumberedRepo("2.0.0");
    OneBelowTwo();
    hide Parse;
    hide GithubRepo;
    hide TrimV;
    hide AfterRun;
    hide Compare;
    OlderIsWritten([Newer], 0, OldRelease, RealRun, "1.0.0");
  }

  lemma OneBelowTwo()
    ensures TrimV("1.0.0") == "1.0.0" && TrimV("2.0.0") == "2.0.0" && BothParse("2.0.0", "1.0.0")
    ensures Compare(Parse("1.0.0").value, Parse("2.0.0").value) < 0
  {
    hide Parse;
    DottedDigit("1");
    DottedDigit("2");
    assert "1" + ("." + ("0" + ("." + "0"))) == "1.0.0" && "2" + ("." + ("0" + ("." + "0"))) == "2.0.0";
  }

  lemma DottedDigit(a: string)
    requires |a| == 1 && Digit(a[0])
    ensures Parse(a + ("." + ("0" + ("." + "0")))) == Some(Version(Extract.DigitValue(a[0]), 0, 0, [], ""))
  {
    hide Parse;
    ThreeDigits(a, "0", "0");
  }

  /** Three digits between dots are a version. */
  lemma ThreeDigits(a: string, b: string, c: string)
    requires |a| == |b| == |c| == 1 && Digit(a[0]) && Digit(b[0]) && Digit(c[0])
    ensures Parse(a + ("." + (b + ("." + c)))) ==
            Some(Version(Extract.DigitValue(a[0]), Extract.DigitValue(b[0]), Extract.DigitValue(c[0]), [], ""))
  {
    var s := a + ("." + (b + ("." + c)));
    assert |s| == 5 && s[0] == a[0] && s[1] == '.' && s[2] == b[0] && s[3] == '.' && s[4] == c[0];
    NotFound(s, '+');
    NotFound(s, '-');
    assert s[..5] == s;
    SplitPart(a, b + ("." + c), '.');
    SplitPart(b, c, '.');
    SplitWhole(c, '.');
    var core := [a, b, c];
    assert Split(s, '.') == core;
    hide Split;
    OneNumber(a);
    OneNumber(b);
    OneNumber(c);
    hide ParseNumber;
    hide Find;
  }

  lemma {:induction false} NotFound(s: string, c: char)
    requires Without(s, c)
    ensures Find(s, c) == |s|
  {
    if s != "" {
      NotFound(s[1..], c);
    }
  }

  lemma OneNumber(a: string)
    requires |a| == 1 && Digit(a[0])
    ensures ParseNumber(a) == Some(Extract.DigitValue(a[0]))
  {
    assert a[..0] == "" && Extract.Value("") == 0;
    assert Extract.Value(a) == 10 * Extract.Value(a[..0]) + Extract.DigitValue(a[0]);
  }

  lemma PathJoin(a: string, b: string, c: string)
    ensures a + (b + c) == a + b + c
  {
  }

  lemma PlainWithout()
    ensures Without(Plain + "o/r", '1')
  {
    assert Without(GithubHost, '1');
    assert Without(Plain, '1');
  }

  lemma NumberedRepo(n: string)
    requires Without(n, '/')
    ensures GithubRepo(Numbered(n)) == Some("o/r" + n)
  {
    NumberedUrl(n);
    hide AfterPrefix;
  }

  lemma NumberedUrl(n: string)
    requires Without(n, '/')
    ensures AfterPrefix(Plain + ("o/r" + n), Plain) == Some("o/r" + n) && AfterPrefix(Plain + ("o/r" + n), Secure) == None
  {
    var url := Plain + ("o/r" + n);
    PrefixesApart(url);
    assert url[|Plain|..] == "o" + ("/" + ("r" + n));
    SplitOf("o", "/" + ("r" + n), '/');
    assert ("/" + ("r" + n))[1..] == "r" + n;
    SplitWhole("r" + n, '/');
    var parts := Split("o" + ("/" + ("r" + n)), '/');
    assert parts[1] == parts[1..][0];
    assert "o" + ("/" + ("r" + n)) == "o/r" + n;
  }

  lemma {:induction false} ReplaceEnd(head: string, w: string, put: string)
    requires |w| == 1 && Without(head, w[0])
    ensures ReplaceAll(head + w, w, put) == head + put
  {
    if head == "" {
      assert "" + w == w && w[1..] == "";
      assert ReplaceAll("", w, put) == "";
      assert put + "" == "" + put;
    } else {
      assert (head + w)[1..] == head[1..] + w;
      assert (head + w)[0] == head[0];
      ReplaceEnd(head[1..], w, put);
      assert [head[0]] + (head[1..] + put) == head + put;
    }
  }
}
