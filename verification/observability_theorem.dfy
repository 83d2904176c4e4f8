/** What adding to the ENV block keeps, and that a second run of wire_observability.py adds nothing. */
module ObservabilityTheorem {
  import opened Text
  import opened Lines
  import opened Wiring
  import opened Observability

  // --- Words in joined lines ---------------------------------------------------------------

  predicate SomeLine(lines: seq<string>, w: string) {
    exists i :: 0 <= i < |lines| && Has(lines[i], w)
  }

  lemma {:induction false} JoinedHas(lines: seq<string>, w: string)
    requires w != "" && Without(w, '\n')
    ensures Has(Joined(lines), w) <==> SomeLine(lines, w)
  {
    hide Has;
    if lines == [] {
      EmptyHas(w);
    } else if |lines| == 1 {
      assert Joined(lines) == lines[0];
    } else {
      var rest := lines[1..];
      HasSplit(lines[0], '\n', Joined(rest), w);
      JoinedHas(rest, w);
      if i :| 0 <= i < |lines| && Has(lines[i], w) {
        if i > 0 {
          assert rest[i - 1] == lines[i];
        }
      }
      if i :| 0 <= i < |rest| && Has(rest[i], w) {
        assert lines[i + 1] == rest[i];
      }
    }
  }

  lemma EmptyHas(w: string)
    requires w != ""
    ensures !Has("", w)
  {
  }

  // --- The last line of a block, changed ------------------------------------------------------

  lemma FrontStays(line: string, w: string)
    requires w != "" && w <= Strip(line) && !Space(w[0]) && !Space(w[|w| - 1]) && w[|w| - 1] != '\\'
    ensures w <= Strip(Joining(line))
  {
    StripFront(line, w);
    var t := LStrip(line);
    if EndsSlash(line) {
      var pre := LStripParts(line);
      var p := |pre| + |w| - 1;
      assert line[p] == t[|w| - 1] == w[|w| - 1];
      UnslashedKeeps(line, p);
      var u := Unslashed(line);
      assert u == pre + u[|pre|..] && u[|pre|..][..|w|] == t[..|w|];
      LStripOf(pre, u[|pre|..]);
      StripFront(u, w);
    } else {
      LStripMore(line, " \\");
      assert (t + " \\")[..|w|] == t[..|w|];
      StripFront(line + " \\", w);
    }
  }

  lemma MemberStays(line: string)
    requires Member(line)
    ensures Member(Joining(line))
  {
    hide Joining;
    var s := Strip(line);
    if "\"" <= s {
      FrontStays(line, "\"");
    } else if "SHIM_" <= s {
      FrontStays(line, "SHIM_");
    } else if "EVERGREEN" <= s {
      FrontStays(line, "EVERGREEN");
    } else {
      FrontStays(line, "PGDATA");
    }
  }

  /** Where the shim variable stands in an ENV line. */
  lemma ShimBehindEnv(t: string, j: nat)
    requires "ENV " <= Upper(t) && j <= |t| && "SHIM_" <= t[j..]
    ensures 4 <= j && j + 5 <= |t| && t[j + 4] == '_'
  {
    assert t[j] == t[j..][0] == 'S' && t[j + 4] == t[j..][4] == '_';
    var u := Upper(t);
    assert u[0] == 'E' && u[1] == 'N' && u[2] == 'V' && u[3] == ' ';
    assert u[j] == 'S';
  }

  lemma EnvStays(line: string)
    requires EnvStart(line) && Has(line, "SHIM_")
    ensures EnvStart(Joining(line))
  {
    hide Has;
    if EndsSlash(line) {
      EnvUnslashed(line);
    } else {
      LStripMore(line, " \\");
      RStripSame(LStrip(line) + " \\");
      RStripPrefix(LStrip(line));
      UpperFront(Strip(line), LStrip(line) + " \\");
    }
  }

  lemma EnvUnslashed(line: string)
    requires EnvStart(line) && Has(line, "SHIM_")
    ensures EnvStart(Unslashed(line))
  {
    var pre, post := StripParts(line);
    var i := HasWhere(line, "SHIM_");
    hide Has;
    hide Strip;
    hide Unslashed;
    var t := Strip(line);
    ShimInside(pre, t, post, i);
    ShimBehindEnv(t, i - |pre|);
    hide Upper;
    InnerChar(pre, t, post, i + 4);
    UnslashedKeeps(line, i + 4);
    Fronts(pre, t, post, Unslashed(line), i + 4);
    EnvFront(pre, t, Unslashed(line), i + 4);
  }

  lemma InnerChar(pre: string, t: string, post: string, k: nat)
    requires |pre| <= k < |pre| + |t|
    ensures (pre + (t + post))[k] == t[k - |pre|]
  {
  }

  lemma Fronts(pre: string, t: string, post: string, u: string, k: nat)
    requires u <= pre + (t + post) && k < |u| && k < |pre| + |t|
    ensures u[..k] == (pre + t)[..k] && u[k] == (pre + (t + post))[k]
  {
    assert u == (pre + (t + post))[..|u|];
  }

  lemma UpperFront(t: string, s: string)
    requires t <= s && "ENV " <= Upper(t)
    ensures "ENV " <= Upper(s)
  {
    assert Upper(s)[..4] == Upper(t)[..4];
  }

  lemma NotOutside(pre: string, t: string, post: string, k: nat)
    requires Blank(pre) && Blank(post) && k < |pre + (t + post)|
    ensures !Space((pre + (t + post))[k]) ==> |pre| <= k < |pre| + |t|
  {
    var s := pre + (t + post);
    assert k < |pre| ==> s[k] == pre[k];
    assert k >= |pre| + |t| ==> s[k] == post[k - |pre| - |t|];
  }

  lemma ShimInside(pre: string, t: string, post: string, i: nat)
    requires Blank(pre) && Blank(post) && i <= |pre + (t + post)| && "SHIM_" <= (pre + (t + post))[i..]
    ensures |pre| <= i && i - |pre| + 5 <= |t| && "SHIM_" <= t[i - |pre|..]
  {
    var s := pre + (t + post);
    assert s[i..][0] == s[i] == 'S' && s[i..][4] == s[i + 4] == '_';
    NotOutside(pre, t, post, i);
    NotOutside(pre, t, post, i + 4);
    var j := i - |pre|;
    assert t[j..][..5] == s[i..][..5];
  }

  lemma EnvFront(pre: string, t: string, u: string, p: nat)
    requires Blank(pre) && t != "" && !Space(t[0]) && "ENV " <= Upper(t)
    requires |pre| + 4 <= p < |pre| + |t| && p < |u| && u[..p] == (pre + t)[..p] && !Space(u[p])
    ensures EnvStart(u)
  {
    var v := u[|pre|..];
    assert forall k | 0 <= k < p :: u[k] == u[..p][k] == (pre + t)[k];
    assert u == pre + v;
    assert forall k | 0 <= k < 4 :: v[k] == u[|pre| + k] == t[k];
    LStripOf(pre, v);
    assert v[p - |pre|] == u[p];
    RStripKeeps(v, p - |pre|);
    EnvByLetters(t, RStrip(v));
  }

  lemma EnvByLetters(t: string, r: string)
    requires "ENV " <= Upper(t) && |r| >= 4 && forall k | 0 <= k < 4 :: k < |t| ==> r[k] == t[k]
    ensures "ENV " <= Upper(r)
  {
    assert |Upper(t)| >= 4;
    assert Upper(r)[..4] == Upper(t)[..4];
  }

  lemma MemberLetters(s: string)
    ensures "\"" <= s || "SHIM_" <= s || "PGDATA" <= s ==> s[0] == '"' || s[0] == 'S' || s[0] == 'P'
    ensures "EVERGREEN" <= s ==> s[1] == 'V'
  {
  }

  lemma EnvLetters(s: string)
    ensures "ENV " <= Upper(s) ==> |s| >= 4 && UpperChar(s[0]) == 'E' && UpperChar(s[1]) == 'N'
  {
    if "ENV " <= Upper(s) {
      assert Upper(s)[0] == 'E' && Upper(s)[1] == 'N';
    }
  }

  lemma EnvNotMember(line: string)
    ensures !(EnvStart(line) && Member(line))
  {
    MemberLetters(Strip(line));
    EnvLetters(Strip(line));
    hide Upper;
    hide Strip;
  }

  // --- The block grows by one line -----------------------------------------------------------------

  lemma {:induction false} MembersOf(a: seq<string>, b: seq<string>)
    requires (forall i | 0 <= i < |a| :: Member(a[i])) && (b != [] ==> !Member(b[0]))
    ensures Members(a + b) == |a|
  {
    hide Member;
    if a == [] {
      assert a + b == b;
    } else {
      assert (a + b)[1..] == a[1..] + b;
      MembersOf(a[1..], b);
    }
  }

  function Grown(ls: seq<string>, e: nat, m: string, v: string): seq<string>
    requires e < |ls|
  {
    ls[..e] + ([m, v] + ls[e + 1..])
  }

  lemma UnfoldPlain(ls: seq<string>)
    requires ls != [] && !EnvStart(ls[0])
    ensures LastBlock(ls) == Shift(LastBlock(ls[1..]), 1)
  {
  }

  lemma GrownTail(ls: seq<string>, n: nat, e: nat, m: string, v: string)
    requires n <= e < |ls|
    ensures |Grown(ls, e, m, v)| == |ls| + 1
    ensures Grown(ls, e, m, v)[n..] == Grown(ls[n..], e - n, m, v)
    ensures n > 0 ==> Grown(ls, e, m, v)[1..] == ls[1..n] + Grown(ls[n..], e - n, m, v)
    ensures n > 0 ==> Grown(ls, e, m, v)[0] == ls[0]
    ensures Grown(ls, e, m, v)[..n] == ls[..n]
  {
  }

  lemma {:induction false} GrowBlock(ls: seq<string>, m: string, v: string)
    requires LastBlock(ls).Some? && Member(v) && Has(v, "SHIM_")
    requires var r := LastBlock(ls).value;
             && (Member(ls[r.last]) ==> Member(m)) && (r.first == r.last ==> EnvStart(m))
    ensures var r := LastBlock(ls).value; LastBlock(Grown(ls, r.last, m, v)) == Some(Range(r.first, r.last + 1))
    decreases |ls|
  {
    hide Member;
    hide EnvStart;
    hide Has;
    hide LastBlock;
    hide Grown;
    hide Members;
    hide HoldsShim;
    var r := LastBlock(ls).value;
    if EnvStart(ls[0]) {
      var n := Members(ls[1..]);
      Unfold(ls);
      var later := LastBlock(ls[n + 1..]);
      if later.Some? {
        assert ls[n + 1..][later.value.last] == ls[r.last];
        GrowBlock(ls[n + 1..], m, v);
        GrowLater(ls, n, later.value, m, v);
      } else {
        GrowHere(ls, n, m, v);
      }
    } else {
      UnfoldPlain(ls);
      assert ls[1..][r.last - 1] == ls[r.last];
      GrowBlock(ls[1..], m, v);
      GrowPlain(ls, LastBlock(ls[1..]).value, m, v);
    }
  }

  lemma GrowPlain(ls: seq<string>, r: Range, m: string, v: string)
    requires ls != [] && !EnvStart(ls[0]) && r.last < |ls[1..]|
    requires LastBlock(Grown(ls[1..], r.last, m, v)) == Some(Range(r.first, r.last + 1))
    ensures LastBlock(Grown(ls, r.last + 1, m, v)) == Some(Range(r.first + 1, r.last + 2))
  {
    hide EnvStart;
    hide LastBlock;
    hide Grown;
    GrownTail(ls, 1, r.last + 1, m, v);
    UnfoldPlain(Grown(ls, r.last + 1, m, v));
  }

  lemma GrowLater(ls: seq<string>, n: nat, r: Range, m: string, v: string)
    requires ls != [] && EnvStart(ls[0]) && n == Members(ls[1..])
    requires LastBlock(ls[n + 1..]) == Some(r) && (r.first == r.last ==> EnvStart(m))
    requires LastBlock(Grown(ls[n + 1..], r.last, m, v)) == Some(Range(r.first, r.last + 1))
    ensures LastBlock(Grown(ls, r.last + n + 1, m, v)) == Some(Range(r.first + n + 1, r.last + n + 2))
  {
    hide Member;
    hide EnvStart;
    hide HoldsShim;
    hide LastBlock;
    hide Grown;
    hide Members;
    EnvNotMember(m);
    GrownMembers(ls, n, r.last, m, v);
    GrownTail(ls, n + 1, r.last + n + 1, m, v);
    Unfold(Grown(ls, r.last + n + 1, m, v));
  }

  lemma GrownMembers(ls: seq<string>, n: nat, e: nat, m: string, v: string)
    requires ls != [] && n == Members(ls[1..]) && e < |ls[n + 1..]|
    requires e == 0 ==> !Member(m)
    ensures Members(Grown(ls, e + n + 1, m, v)[1..]) == n
  {
    hide Member;
    var tail := ls[n + 1..];
    GrownTail(ls, n + 1, e + n + 1, m, v);
    var grownTail := Grown(tail, e, m, v);
    assert grownTail[0] == if e == 0 then m else tail[0];
    hide Grown;
    assert forall i | 0 <= i < n :: ls[1..n + 1][i] == ls[1..][i];
    assert tail[0] == ls[1..][n];
    MembersOf(ls[1..n + 1], grownTail);
  }

  lemma GrowHere(ls: seq<string>, n: nat, m: string, v: string)
    requires ls != [] && EnvStart(ls[0]) && n == Members(ls[1..]) && LastBlock(ls[n + 1..]) == None
    requires Member(v) && Has(v, "SHIM_") && (n > 0 ==> Member(m)) && (n == 0 ==> EnvStart(m))
    ensures LastBlock(Grown(ls, n, m, v)) == Some(Range(0, n + 1))
  {
    hide Member;
    hide EnvStart;
    hide LastBlock;
    hide HoldsShim;
    hide Members;
    hide Has;
    var grown := Grown(ls, n, m, v);
    GrownRun(ls, n, m, v);
    assert grown[n + 2..] == ls[n + 1..] && grown[..n + 2] == ls[..n] + [m, v];
    assert grown[0] == if n == 0 then m else ls[0];
    HoldsLast(ls[..n] + [m, v], v);
    hide Grown;
    Unfold(grown);
  }

  lemma GrownRun(ls: seq<string>, n: nat, m: string, v: string)
    requires ls != [] && n == Members(ls[1..]) && Member(v) && (n > 0 ==> Member(m))
    ensures Members(Grown(ls, n, m, v)[1..]) == n + 1
  {
    hide Member;
    var inner := if n == 0 then [v] else ls[1..n] + [m, v];
    assert Grown(ls, n, m, v)[1..] == inner + ls[n + 1..];
    assert forall i | 0 <= i < n - 1 :: ls[1..n][i] == ls[1..][i];
    assert n + 1 < |ls| ==> ls[n + 1..][0] == ls[1..][n];
    MembersOf(inner, ls[n + 1..]);
  }

  lemma HoldsLast(block: seq<string>, v: string)
    requires block != [] && block[|block| - 1] == v && Has(v, "SHIM_")
    ensures HoldsShim(block)
  {
    hide Has;
    JoinedHas(block, "SHIM_");
  }

  // --- The final stage stays where it is --------------------------------------------------------------

  lemma {:induction false} LastFromStays(lines: seq<string>, e: nat, m: string, v: string, i: nat)
    requires e < |lines| && i <= |lines|
    requires !Instr(lines[e], "FROM ") && !Instr(m, "FROM ") && !Instr(v, "FROM ")
    ensures var after := Grown(lines, e, m, v);
            LastInstr(after, "FROM ", if i <= e then i else i + 1) ==
            (var n := LastInstr(lines, "FROM ", i); if n == |lines| then |after| else if n < e then n else n + 1)
  {
    hide Instr;
    var after := Grown(lines, e, m, v);
    if i > 0 {
      LastFromStays(lines, e, m, v, i - 1);
      assert i - 1 < e ==> after[i - 1] == lines[i - 1];
      assert i - 1 > e ==> after[i] == lines[i - 1];
      assert after[e] == m && after[e + 1] == v;
    }
  }

  lemma NotFrom(line: string)
    ensures EnvStart(line) || Member(line) ==> !Instr(line, "FROM ")
  {
    var s := Strip(line);
    if Instr(line, "FROM ") {
      assert Upper(s)[0] == 'F';
      assert s[0] == 'F' || s[0] == 'f';
    }
  }

  lemma SettingMember(name: string, value: string)
    requires "SHIM_" <= name
    ensures Member(Indented(Setting(name, value))) && Has(Indented(Setting(name, value)), "SHIM_")
    ensures !EndsSlash(Indented(Setting(name, value)))
  {
    var t := Setting(name, value);
    assert t[..5] == name[..5] && t[0] == 'S';
    LStripOf("    ", t);
    RStripSame(t);
    assert t[|t| - 1] == '"';
    RStripSame(Indented(t));
    HasInside("    ", "SHIM_", t[5..]);
    assert Indented(t) == "    " + ("SHIM_" + t[5..]);
  }

  /** Where the last block ends: on its ENV line or on a member. */
  lemma {:induction false} BlockLast(ls: seq<string>)
    requires LastBlock(ls).Some?
    ensures var r := LastBlock(ls).value;
            if r.first == r.last then EnvStart(ls[r.last]) && Has(ls[r.last], "SHIM_") else Member(ls[r.last])
    decreases |ls|
  {
    hide EnvStart;
    hide Member;
    hide Has;
    if EnvStart(ls[0]) {
      var n := Members(ls[1..]);
      if LastBlock(ls[n + 1..]).Some? {
        BlockLast(ls[n + 1..]);
      } else {
        assert n > 0 ==> ls[n] == ls[1..][n - 1];
        assert n == 0 ==> Joined(ls[..1]) == ls[0];
      }
    } else {
      BlockLast(ls[1..]);
    }
  }

  /**
   A shim variable added to an existing block: the block is found again at the same line and ends
   one line later, all other lines stay in order, and the new last line has no backslash.
   */
  lemma AddGrows(lines: seq<string>, name: string, value: string)
    requires FindBlock(lines).Some? && "SHIM_" <= name
    ensures var r, after := FindBlock(lines).value, AddVar(lines, name, value);
            && FindBlock(after) == Some(Range(r.first, r.last + 1))
            && |after| == |lines| + 1
            && after[..r.last] == lines[..r.last] && after[r.last + 2..] == lines[r.last + 1..]
            && after[r.last + 1] == Indented(Setting(name, value)) && !EndsSlash(after[r.last + 1])
  {
    hide Member;
    hide EnvStart;
    hide Has;
    hide EndsSlash;
    hide Joining;
    hide Indented;
    hide LastBlock;
    hide FinalStart;
    var r := FindBlock(lines).value;
    var start := FinalStart(lines);
    var stage := lines[start..];
    var ender := lines[r.last];
    var m, v := Joining(ender), Indented(Setting(name, value));
    BlockLast(stage);
    assert stage[r.last - start] == ender;
    SettingMember(name, value);
    BlockEndFits(stage, ender);
    GrowBlock(stage, m, v);
    NotFrom(ender);
    NotFrom(m);
    NotFrom(v);
    FinalStays(lines, r.last, m, v);
    var after := AddVar(lines, name, value);
    assert after == Grown(lines, r.last, m, v);
    assert after[start..] == Grown(stage, r.last - start, m, v);
  }

  lemma BlockEndFits(stage: seq<string>, ender: string)
    requires LastBlock(stage).Some? && stage[LastBlock(stage).value.last] == ender
    ensures Member(ender) ==> Member(Joining(ender))
    ensures var r := LastBlock(stage).value; r.first == r.last ==> EnvStart(Joining(ender))
    ensures EnvStart(ender) || Member(ender)
    ensures EnvStart(Joining(ender)) || Member(Joining(ender))
  {
    hide Member;
    hide EnvStart;
    hide Has;
    hide Joining;
    hide LastBlock;
    BlockLast(stage);
    if Member(ender) {
      MemberStays(ender);
    } else {
      EnvStays(ender);
    }
    EnvNotMember(ender);
  }

  lemma FinalStays(lines: seq<string>, e: nat, m: string, v: string)
    requires FinalStart(lines) <= e < |lines|
    requires !Instr(lines[e], "FROM ") && !Instr(m, "FROM ") && !Instr(v, "FROM ")
    ensures FinalStart(Grown(lines, e, m, v)) == FinalStart(lines)
  {
    hide Instr;
    LastFromStays(lines, e, m, v, |lines|);
    hide LastInstr;
  }

  // --- Whether the new line is joined ------------------------------------------------------------------

  lemma LastLineIs(lines: seq<string>, name: string, value: string)
    requires FindBlock(lines).Some?
    ensures var e := FindBlock(lines).value.last; AddVar(lines, name, value)[e] == Joining(lines[e])
  {
    hide FindBlock;
    hide Setting;
    hide Joining;
  }

  /** A block whose last line has no backslash gets one there: the new line is joined. */
  lemma OpenBlockIsJoined(lines: seq<string>, name: string, value: string)
    requires FindBlock(lines).Some? && !EndsSlash(lines[FindBlock(lines).value.last])
    ensures EndsSlash(AddVar(lines, name, value)[FindBlock(lines).value.last])
  {
    hide FindBlock;
    hide AddVar;
    LastLineIs(lines, name, value);
    var line := lines[FindBlock(lines).value.last];
    RStripSame(line + " \\");
  }

  predicate Slashes(s: string) {
    forall i | 0 <= i < |s| :: s[i] == '\\'
  }

  /**
   A block whose last line is continued loses all backslashes at its end: the new line stands
   alone, unless another backslash stands in front of blanks and the lost ones.
   */
  lemma ContinuedBlockIsCut(lines: seq<string>, name: string, value: string, body: string, slashes: string, gap: string)
    requires FindBlock(lines).Some? && lines[FindBlock(lines).value.last] == body + (slashes + gap)
    requires Slashes(slashes) && slashes != "" && Blank(gap) && (body == "" || body[|body| - 1] != '\\')
    ensures AddVar(lines, name, value)[FindBlock(lines).value.last] == RStrip(body)
    ensures EndsSlash(AddVar(lines, name, value)[FindBlock(lines).value.last]) <==> EndsSlash(body)
  {
    hide FindBlock;
    hide AddVar;
    hide EndsSlash;
    hide Unslashed;
    hide Slashes;
    LastLineIs(lines, name, value);
    SlashDropped(body, slashes, gap);
  }

  lemma SlashDropped(body: string, slashes: string, gap: string)
    requires Slashes(slashes) && slashes != "" && Blank(gap) && (body == "" || body[|body| - 1] != '\\')
    ensures EndsSlash(body + (slashes + gap)) && Unslashed(body + (slashes + gap)) == RStrip(body)
    ensures EndsSlash(RStrip(body)) <==> EndsSlash(body)
  {
    var line, slashed := body + (slashes + gap), body + slashes;
    SlashedLine(body, slashes, gap);
    DropAll(body, slashes);
    hide *;
    UnslashedIs(line, slashed, body);
    EndsSlashTwice(body);
  }

  lemma UnslashedIs(line: string, slashed: string, body: string)
    requires RStrip(line) == slashed && slashed != "" && LastOf(slashed) == '\\' && DropSlashes(slashed) == body
    ensures EndsSlash(line) && Unslashed(line) == RStrip(body)
  {
    hide RStrip;
    hide DropSlashes;
  }

  lemma EndsSlashTwice(s: string)
    ensures EndsSlash(RStrip(s)) <==> EndsSlash(s)
  {
    RStripTwice(s);
    hide RStrip;
  }

  lemma SlashedLine(body: string, slashes: string, gap: string)
    requires Slashes(slashes) && slashes != "" && Blank(gap)
    ensures RStrip(body + (slashes + gap)) == body + slashes && LastOf(body + slashes) == '\\'
  {
    hide RStrip;
    var slashed := body + slashes;
    assert slashed[|slashed| - 1] == slashes[|slashes| - 1] == '\\';
    RStripOf(slashed, gap);
    assert body + (slashes + gap) == slashed + gap;
  }

  function LastOf(s: string): char
    requires s != ""
  {
    s[|s| - 1]
  }

  lemma {:induction false} DropAll(body: string, slashes: string)
    requires Slashes(slashes) && (body == "" || body[|body| - 1] != '\\')
    ensures DropSlashes(body + slashes) == body
  {
    if slashes == "" {
      assert body + slashes == body;
    } else {
      var less := slashes[..|slashes| - 1];
      assert (body + slashes)[..|body + slashes| - 1] == body + less;
      DropAll(body, less);
    }
  }

  lemma {:induction false} RStripTwice(s: string)
    ensures RStrip(RStrip(s)) == RStrip(s)
  {
    if s != "" && Space(s[|s| - 1]) {
      RStripTwice(s[..|s| - 1]);
    }
  }
}
