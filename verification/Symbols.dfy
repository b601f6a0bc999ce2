/** The canonical form of a market symbol: every ":USDT" removed, left to right. */
module Symbols {

  const MARK := ":USDT"

  predicate StartsWithMark(s: string) {
    |s| >= 5 && s[..5] == MARK
  }

  function Canonical(s: string): (c: string)
    ensures |c| <= |s|
  {
    if s == [] then []
    else if StartsWithMark(s) then Canonical(s[5..])
    else [s[0]] + Canonical(s[1..])
  }

  /** The mark occurs somewhere in the symbol. */
  predicate Marked(s: string) {
    s != [] && (StartsWithMark(s) || Marked(s[1..]))
  }

  predicate Idempotent(s: string) {
    Canonical(Canonical(s)) == Canonical(s)
  }

  function Upper(c: char): char {
    if 'a' <= c <= 'z' then c - 32 as char else c
  }

  /** SQLite's `LIKE '%:USDT'`, which ignores ASCII case. */
  predicate LikeMarked(s: string) {
    |s| >= 5 && forall i :: 0 <= i < 5 ==> Upper(s[|s| - 5 + i]) == MARK[i]
  }

  /** Exactly the marked symbols change, and changing means getting shorter. */
  lemma {:induction false} CanonicalFixesUnmarked(s: string)
    ensures Marked(s) <==> Canonical(s) != s
    ensures Marked(s) <==> |Canonical(s)| < |s|
  {
    if s != [] && !StartsWithMark(s) {
      CanonicalFixesUnmarked(s[1..]);
      assert s == [s[0]] + s[1..];
    }
  }

  /** Skipping whole marks, the symbol goes on with the letters of the mark from the
      `k`-th on. */
  predicate Spells(s: string, k: nat)
    requires k <= 5
    decreases |s|
  {
    k == 5 || (s != [] &&
      if StartsWithMark(s) then Spells(s[5..], k) else s[0] == MARK[k] && Spells(s[1..], k + 1))
  }

  /** Somewhere outside the marks, a further mark is spelled around some of them. */
  predicate Nested(s: string) {
    s != [] && if StartsWithMark(s) then Nested(s[5..]) else Spells(s, 0) || Nested(s[1..])
  }

  lemma {:induction false} SpelledLettersRemain(s: string, k: nat)
    requires k <= 5
    ensures Spells(s, k) <==> MARK[k..] <= Canonical(s)
    decreases |s|
  {
    if k < 5 && s != [] {
      if StartsWithMark(s) {
        SpelledLettersRemain(s[5..], k);
      } else {
        var rest := Canonical(s[1..]);
        SpelledLettersRemain(s[1..], k + 1);
        assert MARK[k..] == [MARK[k]] + MARK[k + 1..];
        assert Canonical(s)[1..] == rest;
        assert MARK[k..] <= Canonical(s) <==> MARK[k] == s[0] && MARK[k + 1..] <= rest;
      }
    }
  }

  lemma {:induction false} NestedMarksRemain(s: string)
    ensures Marked(Canonical(s)) <==> Nested(s)
  {
    if s != [] {
      if StartsWithMark(s) {
        NestedMarksRemain(s[5..]);
      } else {
        NestedMarksRemain(s[1..]);
        SpelledLettersRemain(s, 0);
        assert MARK[0..] == MARK && Canonical(s)[1..] == Canonical(s[1..]);
        assert StartsWithMark(Canonical(s)) <==> MARK <= Canonical(s);
      }
    }
  }

  /** The rule is idempotent on exactly the symbols in which no mark is spelled around
      other marks. */
  lemma IdempotentUnlessNested(s: string)
    ensures Idempotent(s) <==> !Nested(s)
  {
    NestedMarksRemain(s);
    CanonicalFixesUnmarked(Canonical(s));
  }

  /** Removing an inner mark can close a new one around it. */
  lemma NotIdempotent()
    ensures !Idempotent(":US:USDTDT")
  {
    var s := ":US:USDTDT";
    assert s[1..] == "US:USDTDT" && s[1..][1..] == "S:USDTDT" && s[1..][1..][1..] == ":USDTDT";
    assert ":USDTDT"[5..] == "DT" && "DT"[1..] == "T" && "T"[1..] == "";
    assert Canonical("DT") == "DT";
    assert Canonical(":USDTDT") == "DT";
    assert Canonical("S:USDTDT") == "SDT";
    assert Canonical("US:USDTDT") == "USDT";
    assert Canonical(s) == MARK;
    assert Canonical(MARK) == "";
  }

  lemma PlainStays(c: char, rest: string)
    requires c != ':'
    ensures Canonical([c] + rest) == [c] + Canonical(rest)
  {
    assert ([c] + rest)[1..] == rest;
  }

  lemma LeadingMarkGoes(rest: string)
    ensures Canonical(MARK + rest) == Canonical(rest)
  {
    assert (MARK + rest)[..5] == MARK && (MARK + rest)[5..] == rest;
  }

  /** Colon-free text stays in front of whatever follows. */
  lemma {:induction false} PlainTextStays(base: string, after: string)
    requires ':' !in base
    ensures Canonical(base + after) == base + Canonical(after)
  {
    if base == [] {
      assert base + after == after && base + Canonical(after) == Canonical(after);
    } else {
      var c, tail := base[0], base[1..];
      assert c in base && base + after == [c] + (tail + after);
      PlainTextStays(tail, after);
      PlainStays(c, tail + after);
      assert base + Canonical(after) == [c] + (tail + Canonical(after));
    }
  }

  lemma NoColonNoMark(s: string)
    requires ':' !in s
    ensures Canonical(s) == s
  {
    PlainTextStays(s, "");
    assert s + "" == s && s + Canonical("") == s;
  }

  /** A mark after plain text goes, the text stays, and what follows is treated alike. */
  lemma MarkGoes(base: string, rest: string)
    requires ':' !in base
    ensures Canonical(base + (MARK + rest)) == base + Canonical(rest)
  {
    PlainTextStays(base, MARK + rest);
    LeadingMarkGoes(rest);
  }

  lemma MarkAfterPlainText(base: string)
    requires ':' !in base
    ensures Canonical(base + MARK) == base
  {
    MarkGoes(base, "");
    assert MARK + "" == MARK && base + Canonical("") == base;
  }

  /** The exchange form "BASE/QUOTE:USDT" of a symbol is safe to rename. */
  lemma ExchangeFormIsSafe(base: string)
    requires ':' !in base
    ensures Canonical(base + MARK) == base && Idempotent(base + MARK) && !LikeMarked(base)
  {
    MarkAfterPlainText(base);
    NoColonNoMark(base);
    assert |base| >= 5 ==> base[|base| - 5] in base;
    assert MARK[0] == ':';
  }

  /** A lower-case mark before the mark survives the rule, which is then finished with the
      symbol, and is still a mark to the case-insensitive pattern. */
  lemma LowerCaseMarkSurvives(base: string)
    requires ':' !in base
    ensures var s := base + ":usdt" + MARK;
      Canonical(s) == base + ":usdt" && Idempotent(s) && LikeMarked(Canonical(s))
  {
    LowerCaseMarkStays(base);
    LowerCaseUnmarked(base);
    LowerCaseIsLike(base);
  }

  lemma LowerCaseIsLike(base: string)
    ensures LikeMarked(base + ":usdt")
  {
    var c := base + ":usdt";
    forall i | 0 <= i < 5
      ensures Upper(c[|c| - 5 + i]) == MARK[i]
    {
      assert c[|c| - 5 + i] == ":usdt"[i];
    }
  }

  lemma LowerCaseMarkStays(base: string)
    requires ':' !in base
    ensures Canonical(base + ":usdt" + MARK) == base + ":usdt"
  {
    var after := ":usdt" + MARK;
    PlainTextStays(base, after);
    assert base + ":usdt" + MARK == base + after;
    assert after == ":usdt:USDT" && after[1..] == "usdt" + MARK && after[..5] == ":usdt";
    assert ":usdt"[1] != MARK[1];
    MarkAfterPlainText("usdt");
    assert ":usdt" == [':'] + "usdt";
  }

  lemma LowerCaseUnmarked(base: string)
    requires ':' !in base
    ensures Canonical(base + ":usdt") == base + ":usdt"
  {
    PlainTextStays(base, ":usdt");
    assert ":usdt"[1..] == "usdt" && ":usdt"[..5] == ":usdt" && ":usdt"[1] != MARK[1];
    NoColonNoMark("usdt");
    assert ":usdt" == [':'] + "usdt";
  }
}
