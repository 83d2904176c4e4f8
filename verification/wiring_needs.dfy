/** What a text must hold to pass the checks: the checker has no other way to say yes. */
module WiringNeeds {
  import opened Text
  import opened Lines
  import opened Wiring
  import opened WiringVerdict

  /** u is the end of s. */
  predicate EndOf(u: string, s: string) {
    |u| <= |s| && u == s[|s| - |u|..]
  }

  lemma EndTrans(a: string, b: string, c: string)
    requires EndOf(a, b) && EndOf(b, c)
    ensures EndOf(a, c)
  {
  }

  lemma EndHas(u: string, s: string, w: string)
    requires EndOf(u, s) && w <= u
    ensures Has(s, w)
  {
    HasAt(s, w, |s| - |u|);
  }

  lemma EndSlice(s: string, i: nat)
    requires i <= |s|
    ensures EndOf(s[i..], s)
  {
  }

  lemma AfterEnd(s: string, w: string)
    ensures After(s, w).Some? ==> w <= s && EndOf(After(s, w).value, s)
  {
  }

  lemma AfterWordEnd(s: string, w: string)
    ensures AfterWord(s, w).Some? ==> w <= s && EndOf(AfterWord(s, w).value, s)
  {
    AfterEnd(s, w);
    if After(s, w).Some? {
      EndSlice(After(s, w).value, Span(After(s, w).value));
    }
  }

  lemma UnspacedEnd(s: string)
    ensures EndOf(Unspaced(s), s)
  {
  }

  lemma DropQuoteEnd(s: string)
    ensures EndOf(DropQuote(s), s)
  {
  }

  /** A list that starts with path and word. */
  lemma HeadNeeds(s: string, path: string, word: string)
    ensures ListHead(s, path, word).Some? ==> Has(s, path) && Has(s, word)
  {
    if ListHead(s, path, word).Some? {
      var a := DropQuote(s[1..]);
      EndSlice(s, 1);
      DropQuoteEnd(s[1..]);
      EndTrans(a, s[1..], s);
      AfterEnd(a, path);
      var t := After(a, path).value;
      EndTrans(t, a, s);
      DropQuoteEnd(t);
      UnspacedEnd(DropQuote(t));
      var b := Unspaced(DropQuote(t));
      AfterEnd(b, ",");
      var u := After(b, ",").value;
      UnspacedEnd(u);
      AfterEnd(Unspaced(u), word);
      hide *;
      EndTrans(DropQuote(t), t, s);
      EndTrans(b, DropQuote(t), s);
      EndTrans(u, b, s);
      EndTrans(Unspaced(u), u, s);
      EndHas(a, s, path);
      EndHas(Unspaced(u), s, word);
    }
  }

  /** What stands in an end of the text stands in the text. */
  lemma HasEnd(u: string, s: string, w: string)
    requires EndOf(u, s) && Has(u, w)
    ensures Has(s, w)
  {
    var i := HasWhere(u, w);
    EndSlice(u, i);
    EndTrans(u[i..], u, s);
    EndHas(u[i..], s, w);
  }

  lemma ArgNeeds(content: string)
    ensures HasArg(content) ==> Has(content, "ARG") && Has(content, "SHIM_VERSION")
  {
    hide Has;
    if i :| 0 <= i <= |content| && ArgHere(content[i..]) {
      var s := content[i..];
      EndSlice(content, i);
      AfterWordEnd(s, "ARG");
      var t := AfterWord(s, "ARG").value;
      EndHas(s, content, "ARG");
      EndTrans(t, s, content);
      EndHas(t, content, "SHIM_VERSION");
    }
  }

  lemma StageNeeds(content: string)
    ensures HasFrom(content) ==> Has(content, "FROM") && Has(content, Registry) && Has(content, "AS") && Has(content, "shim")
  {
    hide Has;
    if i :| 0 <= i <= |content| && FromHere(content[i..]) {
      var s := content[i..];
      EndSlice(content, i);
      AfterWordEnd(s, "FROM");
      var t := AfterWord(s, "FROM").value;
      EndHas(s, content, "FROM");
      EndTrans(t, s, content);
      EndHas(t, content, Registry);
      var n :| |Registry| <= n <= |t| && Without(t[|Registry|..n], '\n') && StageHere(t[n..]);
      var u := Unspaced(t[n..]);
      AfterWordEnd(u, "AS");
      var v := AfterWord(u, "AS").value;
      assert "shim" <= v && "AS" <= u;
      hide *;
      EndSlice(t, n);
      UnspacedEnd(t[n..]);
      EndTrans(t[n..], t, content);
      EndTrans(u, t[n..], content);
      EndTrans(v, u, content);
      EndHas(u, content, "AS");
      EndHas(v, content, "shim");
    }
  }

  lemma CheckNeeds(content: string, path: string)
    ensures HasCheck(content, path) ==>
            Has(content, "HEALTHCHECK") && Has(content, "CMD") && Has(content, path) && Has(content, "healthcheck")
  {
    hide Has;
    hide CallHere;
    if i :| 0 <= i <= |content| && CheckHere(content[i..], path) {
      var s := content[i..];
      EndSlice(content, i);
      EndHas(s, content, "HEALTHCHECK");
      var n :| 11 <= n <= |s| && CallHere(s[n..], path);
      EndSlice(s, n);
      EndTrans(s[n..], s, content);
      CallNeeds(s[n..], path);
      hide *;
      HasEnd(s[n..], content, "CMD");
      HasEnd(s[n..], content, path);
      HasEnd(s[n..], content, "healthcheck");
    }
  }

  lemma CallNeeds(s: string, path: string)
    ensures CallHere(s, path) ==> Has(s, "CMD") && Has(s, path) && Has(s, "healthcheck")
  {
    hide Has;
    hide ListHead;
    if CallHere(s, path) {
      AfterWordEnd(s, "CMD");
      var t := AfterWord(s, "CMD").value;
      EndSlice(s, 0);
      assert s[0..] == s;
      EndHas(s, s, "CMD");
      if ListHead(t, path, "\"healthcheck\"").Some? {
        HeadNeeds(t, path, "\"healthcheck\"");
        QuotedHas(t);
        HasEnd(t, s, path);
        HasEnd(t, s, "healthcheck");
      } else {
        AfterWordEnd(t, path);
        var u := AfterWord(t, path).value;
        EndHas(t, s, path);
        EndTrans(u, t, s);
        EndHas(u, s, "healthcheck");
      }
    }
  }

  lemma QuotedHas(t: string)
    requires Has(t, "\"healthcheck\"")
    ensures Has(t, "healthcheck")
  {
    var i := HasWhere(t, "\"healthcheck\"");
    var rest := t[i..][13..];
    assert t[i..] == "\"" + ("healthcheck" + ("\"" + rest));
    HasInside("\"", "healthcheck", "\"" + rest);
    HasEnd(t[i..], t, "healthcheck");
  }

  lemma EntryNeeds(content: string, path: string)
    ensures HasEntry(content, path) ==> Has(content, "ENTRYPOINT") && Has(content, path) && Has(content, "\"run\"")
  {
    hide Has;
    hide ListHead;
    hide ListEnd;
    if i :| 0 <= i <= |content| && EntryHere(content[i..], path) {
      var s := content[i..];
      EndSlice(content, i);
      AfterWordEnd(s, "ENTRYPOINT");
      var t := AfterWord(s, "ENTRYPOINT").value;
      EndHas(s, content, "ENTRYPOINT");
      EndTrans(t, s, content);
      HeadNeeds(t, path, "\"run\"");
      hide *;
      HasEnd(t, content, path);
      HasEnd(t, content, "\"run\"");
    }
  }

  /** Every check that passes has its instruction, and the healthcheck and the entrypoint call the shim. */
  lemma VerdictNeeds(content: string)
    ensures var v, path := Check(content), ShimPath(content);
            && (v.arg ==> Has(content, "ARG") && Has(content, "SHIM_VERSION"))
            && (v.from ==> Has(content, "FROM") && Has(content, Registry))
            && (v.copy <==> Has(content, "COPY --from=shim") && (Has(content, "/shim") || Has(content, ShimBin)))
            && (v.check ==> Has(content, "HEALTHCHECK") && Has(content, "CMD") && Has(content, "healthcheck") &&
                            (Has(content, "/shim") || Has(content, ShimBin)))
            && (v.entry ==> Has(content, "ENTRYPOINT") && Has(content, path) && Has(content, "\"run\""))
            && (path == ShimBin || path == "/shim")
  {
    ArgNeeds(content);
    StageNeeds(content);
    CheckNeeds(content, "/shim");
    CheckNeeds(content, ShimBin);
    EntryNeeds(content, ShimPath(content));
    hide Has;
    hide HasArg;
    hide HasFrom;
    hide HasCheck;
    hide HasEntry;
    hide FirstBracket;
  }
}
