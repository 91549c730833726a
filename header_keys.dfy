/**
 * How a table header becomes a key of the case-details object:
 * lower-case it, turn every run of characters outside `[a-zA-Z0-9]` into one `_`, and drop a
 * `_` at either end.
 */
module HeaderKeys {
  import opened Text

  /** `s.replace(/[^a-zA-Z0-9]+/g, '_')`: each maximal run of other characters becomes one
      `_`, the last character of the run standing for the whole run. */
  function Collapse(s: string): (r: string)
    decreases |s|
  {
    if s == [] then []
    else if IsAlnum(s[0]) then [s[0]] + Collapse(s[1..])
    else if 2 <= |s| && !IsAlnum(s[1]) then Collapse(s[1..])
    else "_" + Collapse(s[1..])
  }

  /** `s.replace(/^_|_$/g, '')`: a `_` at the start goes, then a `_` at the end. */
  function StripEdges(s: string): (r: string) {
    var t := if s != [] && s[0] == '_' then s[1..] else s;
    if t != [] && t[|t| - 1] == '_' then t[..|t| - 1] else t
  }

  /** The key of a header. */
  function Key(header: string): string {
    StripEdges(Collapse(AsciiLower(header)))
  }

  /** The characters a key may hold. */
  predicate KeyChar(c: char) {
    ('a' <= c <= 'z') || ('0' <= c <= '9') || c == '_'
  }

  /** Only `[a-z0-9_]`, never `__`. */
  predicate Underscored(s: string) {
    && (forall i :: 0 <= i < |s| ==> KeyChar(s[i]))
    && (forall i :: 0 <= i < |s| - 1 ==> !(s[i] == '_' && s[i + 1] == '_'))
  }

  /** What every key looks like: only `[a-z0-9_]`, never `__`, and no `_` at either end. */
  predicate Canonical(k: string) {
    Underscored(k) && (k != [] ==> k[0] != '_' && k[|k| - 1] != '_')
  }

  /** A non-empty input gives a non-empty output that starts with `_` exactly when the input
      starts outside `[a-zA-Z0-9]`. */
  lemma {:induction false} CollapseFirst(s: string)
    requires s != []
    ensures var c := Collapse(s); c != [] && (c[0] == '_' <==> !IsAlnum(s[0]))
    decreases |s|
  {
    if !IsAlnum(s[0]) && 2 <= |s| && !IsAlnum(s[1]) {
      CollapseFirst(s[1..]);
    }
  }

  /** ... and ends with `_` exactly when the input ends outside `[a-zA-Z0-9]`. */
  lemma {:induction false} CollapseLast(s: string)
    requires s != []
    ensures var c := Collapse(s); c != [] && (c[|c| - 1] == '_' <==> !IsAlnum(s[|s| - 1]))
    decreases |s|
  {
    if 2 <= |s| {
      var t := s[1..];
      assert t[|t| - 1] == s[|s| - 1];
      CollapseLast(t);
    }
  }

  /** Collapsing lower-case text leaves only `[a-z0-9_]` and never `__`. */
  lemma {:induction false} CollapseUnderscored(s: string)
    requires forall i :: 0 <= i < |s| ==> !IsUpper(s[i])
    ensures Underscored(Collapse(s))
    decreases |s|
  {
    if s != [] {
      var t := s[1..];
      CollapseUnderscored(t);
      var c := Collapse(t);
      if IsAlnum(s[0]) {
        assert Collapse(s) == [s[0]] + c;
        UnderscoredCons(s[0], c);
      } else if 2 <= |s| && !IsAlnum(s[1]) {
      } else {
        if t != [] {
          CollapseFirst(t);
        }
        assert Collapse(s) == ['_'] + c;
        UnderscoredCons('_', c);
      }
    }
  }

  lemma UnderscoredCons(x: char, c: string)
    requires KeyChar(x) && Underscored(c)
    requires x == '_' && c != [] ==> c[0] != '_'
    ensures Underscored([x] + c)
  {
    var r := [x] + c;
    forall i | 0 <= i < |r| ensures KeyChar(r[i]) {
      if i > 0 { assert r[i] == c[i - 1]; }
    }
    forall i | 0 <= i < |r| - 1 ensures !(r[i] == '_' && r[i + 1] == '_') {
      if i > 0 { assert r[i] == c[i - 1] && r[i + 1] == c[i]; }
    }
  }

  /** Dropping the `_` at each end of such text leaves a canonical key. */
  lemma StripCanonical(c: string)
    requires Underscored(c)
    ensures Canonical(StripEdges(c))
  {
    var t := if c != [] && c[0] == '_' then c[1..] else c;
    assert Underscored(t) && (t != [] ==> t[0] != '_') by {
      if c != [] && c[0] == '_' && t != [] {
        assert c[1] == t[0];
      }
    }
    if t != [] && t[|t| - 1] == '_' {
      var k := t[..|t| - 1];
      if k != [] {
        assert k[|k| - 1] == t[|t| - 2];
      }
    }
  }

  /** Every key holds only `[a-z0-9_]`, never two `_` in a row, and no `_` at either end. */
  lemma KeyIsCanonical(header: string)
    ensures Canonical(Key(header))
  {
    CollapseUnderscored(AsciiLower(header));
    StripCanonical(Collapse(AsciiLower(header)));
  }

  /** `Collapse` leaves text that already has only `[a-z0-9_]` and no `__` as it is. */
  lemma {:induction false} CollapseOfUnderscored(s: string)
    requires Underscored(s)
    ensures Collapse(s) == s
    decreases |s|
  {
    if s != [] {
      assert Underscored(s[1..]);
      CollapseOfUnderscored(s[1..]);
    }
  }

  /** A key is its own key: normalising is idempotent. */
  lemma KeyOfCanonical(k: string)
    requires Canonical(k)
    ensures Key(k) == k
  {
    AsciiLowerOfLower(k);
    CollapseOfUnderscored(k);
  }

  lemma KeyIdempotent(header: string)
    ensures Key(Key(header)) == Key(header)
  {
    KeyIsCanonical(header);
    KeyOfCanonical(Key(header));
  }

  /** The letters and digits of `s`, in order. */
  function Alnums(s: string): (a: string)
    ensures |a| <= |s|
  {
    if s == [] then [] else (if IsAlnum(s[0]) then [s[0]] else []) + Alnums(s[1..])
  }

  lemma {:induction false} AlnumsAppend(a: string, b: string)
    ensures Alnums(a + b) == Alnums(a) + Alnums(b)
    decreases |a|
  {
    if a == [] {
      assert a + b == b;
    } else {
      var t := a + b;
      var head := if IsAlnum(a[0]) then [a[0]] else [];
      assert t[0] == a[0] && t[1..] == a[1..] + b;
      AlnumsAppend(a[1..], b);
      calc {
        Alnums(t);
        head + Alnums(a[1..] + b);
        head + (Alnums(a[1..]) + Alnums(b));
        (head + Alnums(a[1..])) + Alnums(b);
        Alnums(a) + Alnums(b);
      }
    }
  }

  lemma {:induction false} CollapseKeepsAlnums(s: string)
    ensures Alnums(Collapse(s)) == Alnums(s)
    decreases |s|
  {
    if s != [] {
      CollapseKeepsAlnums(s[1..]);
      if IsAlnum(s[0]) {
        AlnumsAppend([s[0]], Collapse(s[1..]));
      } else if !(2 <= |s| && !IsAlnum(s[1])) {
        AlnumsAppend("_", Collapse(s[1..]));
      }
    }
  }

  /** The key keeps every letter and digit of the header, lower-cased, in order, and nothing
      else but `_`. */
  lemma KeyKeepsAlnums(header: string)
    ensures Alnums(Key(header)) == Alnums(AsciiLower(header))
  {
    CollapseKeepsAlnums(AsciiLower(header));
    StripKeepsAlnums(Collapse(AsciiLower(header)));
  }

  /** Dropping an edge `_` drops no letter or digit. */
  lemma StripKeepsAlnums(c: string)
    ensures Alnums(StripEdges(c)) == Alnums(c)
  {
    var t := if c != [] && c[0] == '_' then c[1..] else c;
    if c != [] && c[0] == '_' {
      assert Alnums(c) == [] + Alnums(c[1..]);
    }
    if t != [] && t[|t| - 1] == '_' {
      DropLastUnderscore(t);
    }
  }

  lemma DropLastUnderscore(t: string)
    requires t != [] && t[|t| - 1] == '_'
    ensures Alnums(t[..|t| - 1]) == Alnums(t)
  {
    var u := t[..|t| - 1];
    assert t == u + "_";
    AlnumsAppend(u, "_");
    assert Alnums("_") == [] + Alnums([]);
  }

  lemma {:induction false} AlnumsEmpty(s: string)
    ensures Alnums(s) == [] <==> forall i :: 0 <= i < |s| ==> !IsAlnum(s[i])
    decreases |s|
  {
    if s != [] {
      AlnumsEmpty(s[1..]);
      if !IsAlnum(s[0]) {
        assert forall i :: 1 <= i < |s| ==> s[i] == s[1..][i - 1];
      }
    }
  }

  /** A header gets the empty key exactly when it holds no letter or digit at all. */
  lemma KeyEmptyIff(header: string)
    ensures Key(header) == [] <==> forall i :: 0 <= i < |header| ==> !IsAlnum(header[i])
  {
    var k := Key(header);
    KeyKeepsAlnums(header);
    KeyIsCanonical(header);
    AlnumsEmpty(AsciiLower(header));
    AlnumsEmpty(k);
    if k != [] {
      assert IsAlnum(k[0]);
    }
  }

  // ----- two headers of the case-details page -----

  lemma {:induction false} CollapseWord(w: string, rest: string)
    requires forall i :: 0 <= i < |w| ==> IsAlnum(w[i])
    ensures Collapse(w + rest) == w + Collapse(rest)
    decreases |w|
  {
    if w != [] {
      assert (w + rest)[1..] == w[1..] + rest;
      CollapseWord(w[1..], rest);
    } else {
      assert w + rest == rest;
    }
  }

  lemma {:induction false} CollapseGap(g: string, rest: string)
    requires g != [] && forall i :: 0 <= i < |g| ==> !IsAlnum(g[i])
    requires rest == [] || IsAlnum(rest[0])
    ensures Collapse(g + rest) == "_" + Collapse(rest)
    decreases |g|
  {
    assert (g + rest)[1..] == g[1..] + rest;
    if |g| > 1 {
      CollapseGap(g[1..], rest);
    }
  }

  /** Two words of lower-case letters and digits with a gap of other characters between them
      become the two words joined by one `_`, however long the gap and whatever other
      characters follow the second word. */
  lemma TwoWordsKey(w1: string, gap: string, w2: string, tail: string)
    requires w1 != [] && forall i :: 0 <= i < |w1| ==> IsAlnum(w1[i]) && !IsUpper(w1[i])
    requires gap != [] && forall i :: 0 <= i < |gap| ==> !IsAlnum(gap[i])
    requires w2 != [] && forall i :: 0 <= i < |w2| ==> IsAlnum(w2[i]) && !IsUpper(w2[i])
    requires forall i :: 0 <= i < |tail| ==> !IsAlnum(tail[i])
    ensures Key(w1 + gap + w2 + tail) == w1 + "_" + w2
  {
    var s := w1 + gap + w2 + tail;
    forall i | 0 <= i < |s| ensures !IsUpper(s[i]) {
      if i < |w1| { assert s[i] == w1[i]; }
      else if i < |w1| + |gap| { assert s[i] == gap[i - |w1|]; }
      else if i < |w1| + |gap| + |w2| { assert s[i] == w2[i - |w1| - |gap|]; }
      else { assert s[i] == tail[i - |w1| - |gap| - |w2|]; }
    }
    AsciiLowerOfLower(s);
    CollapseTwoWords(w1, gap, w2, tail);
    var k := w1 + "_" + w2;
    assert k[0] == w1[0] && k[|k| - 1] == w2[|w2| - 1];
  }

  lemma CollapseTwoWords(w1: string, gap: string, w2: string, tail: string)
    requires forall i :: 0 <= i < |w1| ==> IsAlnum(w1[i])
    requires gap != [] && forall i :: 0 <= i < |gap| ==> !IsAlnum(gap[i])
    requires w2 != [] && forall i :: 0 <= i < |w2| ==> IsAlnum(w2[i])
    requires forall i :: 0 <= i < |tail| ==> !IsAlnum(tail[i])
    ensures Collapse(w1 + gap + w2 + tail) == w1 + "_" + w2 + (if tail == [] then "" else "_")
  {
    var rest := w2 + tail;
    var end := Collapse(tail);
    assert w1 + gap + w2 + tail == w1 + (gap + rest);
    CollapseWord(w1, gap + rest);
    CollapseGap(gap, rest);
    CollapseWord(w2, tail);
    assert end == (if tail == [] then "" else "_") by {
      if tail != [] {
        assert tail + [] == tail;
        CollapseGap(tail, []);
      }
    }
    calc {
      Collapse(w1 + (gap + rest));
      w1 + Collapse(gap + rest);
      w1 + ("_" + Collapse(rest));
      w1 + ("_" + (w2 + end));
      w1 + "_" + w2 + end;
    }
  }

  /** `Filing   Number` becomes `filing_number`. */
  lemma FilingNumberKey(header: string)
    requires header == "Filing   Number"
    ensures Key(header) == "filing_number"
  {
    var lower := AsciiLower(header);
    FilingNumberLower(header, lower);
    var c := Collapse(lower);
    FilingNumberWords(lower, c);
    KeepEdges(c);
  }

  /** A text that starts and ends with a letter keeps its edges. */
  lemma KeepEdges(c: string)
    requires c != [] && c[0] != '_' && c[|c| - 1] != '_'
    ensures StripEdges(c) == c
  {
  }

  lemma FilingNumberLower(header: string, lower: string)
    requires header == "Filing   Number" && lower == AsciiLower(header)
    ensures lower == "filing   number"
  {
    var expected := "filing   number";
    assert forall i :: 0 <= i < |header| ==> LowerChar(header[i]) == expected[i];
  }

  lemma FilingNumberWords(lower: string, c: string)
    requires lower == "filing   number" && c == Collapse(lower)
    ensures c == "filing_number"
  {
    var w1, gap, w2 := "filing", "   ", "number";
    var joined := w1 + gap + w2;
    assert |joined| == |lower|;
    assert forall i :: 0 <= i < |lower| ==> joined[i] == lower[i];
    assert lower == joined + "";
    CollapseTwoWords(w1, gap, w2, "");
    var key := w1 + "_" + w2 + "";
    assert |key| == 13 && forall i :: 0 <= i < 13 ==> key[i] == "filing_number"[i];
  }

  /** `CNR No.` becomes `cnr_no`: the trailing dot leaves a `_` that is then dropped. */
  lemma CnrNoKey(header: string)
    requires header == "CNR No."
    ensures Key(header) == "cnr_no"
  {
    var lower := AsciiLower(header);
    CnrNoLower(header, lower);
    var c := Collapse(lower);
    CnrNoWords(lower, c);
    assert c[..|c| - 1] == "cnr_no";
  }

  lemma CnrNoLower(header: string, lower: string)
    requires header == "CNR No." && lower == AsciiLower(header)
    ensures lower == "cnr no."
  {
    var expected := "cnr no.";
    assert forall i :: 0 <= i < |header| ==> LowerChar(header[i]) == expected[i];
  }

  lemma CnrNoWords(lower: string, c: string)
    requires lower == "cnr no." && c == Collapse(lower)
    ensures c == "cnr_no_"
  {
    var w1, gap, w2, tail := "cnr", " ", "no", ".";
    var joined := w1 + gap + w2 + tail;
    assert |joined| == |lower|;
    assert forall i :: 0 <= i < |lower| ==> joined[i] == lower[i];
    assert lower == joined;
    CollapseTwoWords(w1, gap, w2, tail);
    var key := w1 + "_" + w2 + "_";
    assert |key| == 7 && forall i :: 0 <= i < 7 ==> key[i] == "cnr_no_"[i];
  }

  /** The first table's header text: trimmed, then the first `<strong>` and the first
      `</strong>` removed. */
  function SummaryHeader(text: string): string {
    RemoveFirst(RemoveFirst(Trim(text), "<strong>"), "</strong>")
  }

  /** `s.replace(/[\t\r\n]+/g, ' ')`: each run of tabs and line breaks becomes one space. */
  function BreaksToSpace(s: string): (r: string)
    ensures forall i :: 0 <= i < |r| ==> r[i] != '\t' && r[i] != '\r' && r[i] != '\n'
    decreases |s|
  {
    if s == [] then []
    else if IsBreak(s[0]) then
      (if 2 <= |s| && IsBreak(s[1]) then BreaksToSpace(s[1..]) else " " + BreaksToSpace(s[1..]))
    else [s[0]] + BreaksToSpace(s[1..])
  }

  predicate IsBreak(c: char) {
    c == '\t' || c == '\r' || c == '\n'
  }

  /** The second table's header text: trimmed, runs of tabs and line breaks turned into one
      space, trimmed again. */
  function StatusHeader(text: string): string {
    Trim(BreaksToSpace(Trim(text)))
  }

  lemma {:induction false} BreaksToSpaceEnds(s: string)
    requires s != [] && !IsBreak(s[0]) && !IsBreak(s[|s| - 1])
    ensures var r := BreaksToSpace(s); r != [] && r[0] == s[0] && r[|r| - 1] == s[|s| - 1]
    decreases |s|
  {
    if |s| > 1 {
      var t := s[1..];
      assert t[|t| - 1] == s[|s| - 1];
      BreaksToSpaceTail(t);
    }
  }

  lemma {:induction false} BreaksToSpaceTail(s: string)
    requires s != [] && !IsBreak(s[|s| - 1])
    ensures var r := BreaksToSpace(s); r != [] && r[|r| - 1] == s[|s| - 1]
    decreases |s|
  {
    if |s| > 1 {
      var t := s[1..];
      assert t[|t| - 1] == s[|s| - 1];
      BreaksToSpaceTail(t);
    }
  }

  /** The second `trim` of a status header never removes anything: the first one already
      left a non-blank character at each end, and those are not tabs or line breaks. */
  lemma SecondTrimIsRedundant(text: string)
    ensures StatusHeader(text) == BreaksToSpace(Trim(text))
  {
    var t := Trim(text);
    if t != [] {
      BreaksToSpaceEnds(t);
      TrimOfTrimmed(BreaksToSpace(t));
    }
  }
}
