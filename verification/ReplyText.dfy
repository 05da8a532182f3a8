/**
  * The text a surface is handed: `trimReply` and `trimParts` of packages/agen-runtime/src/loop.ts.
  *
  * A string is its UTF-16 code units, which is what `length`, `slice` and `lastIndexOf` count.
  */
module ReplyText {

  import opened Basics

  type Unit = u: int | 0 <= u < 0x1_0000

  type Text = seq<Unit>

  const SPACE: Unit := 0x20
  const ELLIPSIS: Unit := 0x2026

  /** The white space and line terminators of ECMAScript, which `\s` and `trim` share. */
  predicate IsSpace(u: Unit) {
    0x09 <= u <= 0x0D || u == 0x20 || u == 0xA0 || u == 0x1680 || 0x2000 <= u <= 0x200A
    || u == 0x2028 || u == 0x2029 || u == 0x202F || u == 0x205F || u == 0x3000 || u == 0xFEFF
  }

  /** A literal's code units. */
  function Units(s: string): Text { seq(|s|, i requires 0 <= i < |s| => (s[i] as int) % 0x1_0000) }

  // ----- collapsing white space --------------------------------------------------------------------

  /** White space comes as single spaces. */
  predicate Spaced(s: Text) {
    && (forall i | 0 <= i < |s| :: IsSpace(s[i]) ==> s[i] == SPACE)
    && (forall i, j | 0 <= i < |s| && j == i + 1 < |s| :: !(IsSpace(s[i]) && IsSpace(s[j])))
  }

  predicate Tidy(s: Text) { Spaced(s) && (s != [] ==> !IsSpace(s[0]) && !IsSpace(s[|s| - 1])) }

  /** Every run of white space becomes one space. */
  function Collapse(s: Text): (r: Text)
    ensures Spaced(r) && (r == [] <==> s == []) && (s != [] ==> (IsSpace(r[0]) <==> IsSpace(s[0])))
  {
    if s == [] then []
    else if !IsSpace(s[0]) then [s[0]] + Collapse(s[1..])
    else if |s| > 1 && IsSpace(s[1]) then Collapse(s[1..])
    else [SPACE] + Collapse(s[1..])
  }

  function TrimStart(s: Text): (r: Text)
    ensures |r| <= |s| && r == s[|s| - |r|..] && (r != [] ==> !IsSpace(r[0]))
  {
    if s != [] && IsSpace(s[0]) then TrimStart(s[1..]) else s
  }

  function TrimEnd(s: Text): (r: Text)
    ensures |r| <= |s| && r == s[..|r|] && (r != [] ==> !IsSpace(r[|r| - 1]))
  {
    if s != [] && IsSpace(s[|s| - 1]) then TrimEnd(s[..|s| - 1]) else s
  }

  function Trim(s: Text): Text { TrimEnd(TrimStart(s)) }

  lemma SlicesAreSpaced(s: Text, i: nat, j: nat)
    requires Spaced(s) && i <= j <= |s|
    ensures Spaced(s[i..j])
  {
    hide IsSpace;
  }

  lemma {:induction false} TrimTidies(s: Text)
    requires Spaced(s)
    ensures Tidy(Trim(s))
  {
    hide IsSpace, Spaced;
    var from, r := TrimStart(s), Trim(s);
    SlicesAreSpaced(s, |s| - |from|, |s|);
    assert from == s[|s| - |from|..|s|];
    SlicesAreSpaced(from, 0, |r|);
    assert r == from[0..|r|];
    assert r != [] ==> r[0] == from[0];
  }

  function Tidied(s: Text): (r: Text)
    ensures Tidy(r)
  {
    TrimTidies(Collapse(s));
    Trim(Collapse(s))
  }

  lemma {:induction false} SpacedIsCollapsed(s: Text)
    requires Spaced(s)
    ensures Collapse(s) == s
  {
    if s != [] {
      SpacedIsCollapsed(s[1..]);
      assert s == [s[0]] + s[1..];
    }
  }

  /** Tidying tidy text changes nothing. */
  lemma TidyIsTidied(s: Text)
    requires Tidy(s)
    ensures Tidied(s) == s
  {
    SpacedIsCollapsed(s);
  }

  /** The maximal runs of units that are not white space, in order. */
  function Words(s: Text): (words: seq<Text>)
    ensures s != [] && !IsSpace(s[0]) ==> words != []
  {
    if s == [] then []
    else if IsSpace(s[0]) then Words(s[1..])
    else if |s| == 1 || IsSpace(s[1]) then [[s[0]]] + Words(s[1..])
    else
      var rest := Words(s[1..]);
      [[s[0]] + rest[0]] + rest[1..]
  }

  lemma {:induction false} CollapseKeepsWords(s: Text)
    ensures Words(Collapse(s)) == Words(s)
  {
    if s != [] {
      var rest := Collapse(s[1..]);
      CollapseKeepsWords(s[1..]);
      if !IsSpace(s[0]) {
        assert ([s[0]] + rest)[1..] == rest;
      } else if |s| == 1 || !IsSpace(s[1]) {
        assert ([SPACE] + rest)[1..] == rest;
      }
    }
  }

  lemma {:induction false} TrimStartKeepsWords(s: Text)
    ensures Words(TrimStart(s)) == Words(s)
  {
    if s != [] && IsSpace(s[0]) {
      TrimStartKeepsWords(s[1..]);
    }
  }

  lemma {:induction false} TrailingSpaceIsNoWord(s: Text, u: Unit)
    requires IsSpace(u)
    ensures Words(s + [u]) == Words(s)
  {
    if s == [] {
      assert Words([u]) == Words([u][1..]) == [];
    } else {
      TrailingSpaceIsNoWord(s[1..], u);
      assert (s + [u])[1..] == s[1..] + [u];
    }
  }

  lemma {:induction false} TrimEndKeepsWords(s: Text)
    ensures Words(TrimEnd(s)) == Words(s)
  {
    if s != [] && IsSpace(s[|s| - 1]) {
      TrimEndKeepsWords(s[..|s| - 1]);
      TrailingSpaceIsNoWord(s[..|s| - 1], s[|s| - 1]);
      assert s == s[..|s| - 1] + [s[|s| - 1]];
    }
  }

  lemma TidyingKeepsWords(s: Text)
    ensures Words(Tidied(s)) == Words(s)
  {
    CollapseKeepsWords(s);
    TrimStartKeepsWords(Collapse(s));
    TrimEndKeepsWords(TrimStart(Collapse(s)));
  }

  /** Blank text is text without a word. */
  lemma {:induction false} BlankHasNoWords(s: Text)
    ensures Trim(s) == [] <==> Words(s) == []
  {
    TrimStartKeepsWords(s);
    TrimEndKeepsWords(TrimStart(s));
    hide IsSpace;
    if Trim(s) != [] {
      assert Trim(s)[0] == TrimStart(s)[0];
    }
  }

  // ----- cutting ---------------------------------------------------------------------------------------

  /** `slice(0, end)`: a negative end counts from the back. */
  function SliceTo(s: Text, end: int): Text {
    var stop := if end < 0 then |s| + end else end;
    if stop <= 0 then [] else if stop >= |s| then s else s[..stop]
  }

  /** The last index of a space, or -1. */
  function LastSpace(s: Text): (k: int)
    ensures -1 <= k < |s| && (k >= 0 ==> s[k] == SPACE)
    ensures forall j | k < j < |s| :: s[j] != SPACE
  {
    if s == [] then -1 else if s[|s| - 1] == SPACE then |s| - 1 else LastSpace(s[..|s| - 1])
  }

  /** Text longer than the limit, cut and marked. */
  function Cut(tidy: Text, maxChars: int): Text {
    var cut := SliceTo(tidy, maxChars - 1);
    var lastSpace := LastSpace(cut);
    TrimEnd(if lastSpace > 3 * maxChars / 4 then SliceTo(cut, lastSpace) else cut) + [ELLIPSIS]
  }

  function TrimReply(value: Option<Text>, maxChars: int): Option<Text> {
    if value.None? then None
    else
      var tidy := Tidied(value.value);
      if tidy == [] then None else if |tidy| <= maxChars then Some(tidy) else Some(Cut(tidy, maxChars))
  }

  lemma MarkedPrefixIsTidy(tidy: Text, k: nat)
    requires Tidy(tidy) && k <= |tidy| && (k > 0 ==> !IsSpace(tidy[k - 1]))
    ensures Tidy(tidy[..k] + [ELLIPSIS])
  {
  }

  lemma CutKeepsAPrefix(tidy: Text, maxChars: int) returns (k: nat)
    requires |tidy| > maxChars
    ensures k <= |tidy| && Cut(tidy, maxChars) == tidy[..k] + [ELLIPSIS]
    ensures (k > 0 ==> !IsSpace(tidy[k - 1])) && (maxChars >= 1 ==> k < maxChars)
  {
    hide IsSpace;
    var cut := SliceTo(tidy, maxChars - 1);
    var lastSpace := LastSpace(cut);
    k := |TrimEnd(if lastSpace > 3 * maxChars / 4 then SliceTo(cut, lastSpace) else cut)|;
  }

  /** The cut keeps a prefix; with room for the mark at all, the result fits and is tidy. */
  lemma CutFits(tidy: Text, maxChars: int)
    requires Tidy(tidy) && |tidy| > maxChars
    ensures
      var kept := Cut(tidy, maxChars)[..|Cut(tidy, maxChars)| - 1];
      && kept <= tidy && (kept != [] ==> !IsSpace(kept[|kept| - 1]))
      && Cut(tidy, maxChars) == kept + [ELLIPSIS]
    ensures maxChars >= 1 ==> Tidy(Cut(tidy, maxChars)) && |Cut(tidy, maxChars)| <= maxChars
  {
    hide IsSpace, Tidy, Cut;
    var k := CutKeepsAPrefix(tidy, maxChars);
    MarkedPrefixIsTidy(tidy, k);
    assert (tidy[..k] + [ELLIPSIS])[..k] == tidy[..k];
  }

  lemma {:induction false} TrimOneSpace(s: Text)
    requires Spaced(s) && (s != [] ==> !IsSpace(s[0]))
    ensures TrimEnd(s) == if s != [] && s[|s| - 1] == SPACE then s[..|s| - 1] else s
  {
  }

  /**
    * The cut keeps up to the last space when that is past three quarters of the limit, so that no word
    * is broken, and otherwise all it has room for, less a space at its end.
    */
  lemma CutsAtTheLastLateSpace(tidy: Text, maxChars: int)
    requires Tidy(tidy) && 1 <= maxChars < |tidy|
    ensures 0 <= |Cut(tidy, maxChars)| - 1 < maxChars
    ensures
      var kept := |Cut(tidy, maxChars)| - 1;
      if exists j :: 3 * maxChars / 4 < j < maxChars - 1 && tidy[j] == SPACE then
        && 3 * maxChars / 4 < kept < maxChars - 1 && tidy[kept] == SPACE
        && forall j | kept < j < maxChars - 1 :: tidy[j] != SPACE
      else kept == if maxChars >= 2 && tidy[maxChars - 2] == SPACE then maxChars - 2 else maxChars - 1
  {
    hide Cut, TrimEnd, IsSpace, LastSpace, SliceTo, Spaced;
    var cut := tidy[..maxChars - 1];
    var k := LastSpace(cut);
    CutUnfolded(tidy, maxChars);
    PrefixIsSpaced(tidy, maxChars - 1);
    assert forall j | 0 <= j < |cut| :: cut[j] == tidy[j];
    if k > 3 * maxChars / 4 {
      PrefixIsSpaced(tidy, k);
      NoTwoSpaces(tidy, k);
      TrimOneSpace(tidy[..k]);
      assert tidy[k] == SPACE;
    } else {
      TrimOneSpace(cut);
      assert cut != [] ==> cut[|cut| - 1] == tidy[maxChars - 2];
    }
  }

  lemma PrefixIsSpaced(tidy: Text, k: nat)
    requires Tidy(tidy) && k <= |tidy|
    ensures Spaced(tidy[..k]) && (k > 0 ==> !IsSpace(tidy[..k][0]))
  {
    hide IsSpace;
  }

  lemma NoTwoSpaces(tidy: Text, k: nat)
    requires Tidy(tidy) && 0 < k < |tidy| && tidy[k] == SPACE
    ensures tidy[k - 1] != SPACE
  {
    assert IsSpace(SPACE);
  }

  lemma CutUnfolded(tidy: Text, maxChars: int)
    requires 1 <= maxChars < |tidy|
    ensures
      var cut := tidy[..maxChars - 1];
      Cut(tidy, maxChars) == TrimEnd(if LastSpace(cut) > 3 * maxChars / 4 then tidy[..LastSpace(cut)] else cut) + [ELLIPSIS]
  {
    hide TrimEnd, LastSpace, IsSpace;
    var cut := tidy[..maxChars - 1];
    assert LastSpace(cut) > 0 ==> cut[..LastSpace(cut)] == tidy[..LastSpace(cut)];
  }

  /** Says something, is tidy, and is within the limit, for any limit that allows a single unit. */
  predicate Fits(text: Text, maxChars: int) {
    text != [] && (|text| <= maxChars <==> maxChars >= 1) && (maxChars >= 1 ==> Tidy(text))
  }

  /** A reply is dropped exactly when it has no word, and otherwise fits exactly when anything could. */
  lemma RepliesFit(value: Text, maxChars: int)
    ensures TrimReply(Some(value), maxChars).None? <==> Words(value) == []
    ensures TrimReply(Some(value), maxChars).Some? ==> Fits(TrimReply(Some(value), maxChars).value, maxChars)
    ensures |Tidied(value)| <= maxChars && Words(value) != [] ==> TrimReply(Some(value), maxChars) == Some(Tidied(value))
  {
    TidyingKeepsWords(value);
    if |Tidied(value)| > maxChars {
      CutFits(Tidied(value), maxChars);
    }
  }

  /** Trimming what was trimmed changes nothing. */
  lemma TrimmingIsIdempotent(value: Option<Text>, maxChars: int)
    requires maxChars >= 1
    ensures TrimReply(TrimReply(value, maxChars), maxChars) == TrimReply(value, maxChars)
  {
    if TrimReply(value, maxChars).Some? {
      RepliesFit(value.value, maxChars);
      TidyIsTidied(TrimReply(value, maxChars).value);
    }
  }

  // ----- threads -----------------------------------------------------------------------------------------

  /** Every part that says something, trimmed, in order. */
  function Trimmed(values: seq<Text>, maxChars: int): seq<Text> {
    if values == [] then []
    else
      var front, last := Trimmed(values[..|values| - 1], maxChars), TrimReply(Some(values[|values| - 1]), maxChars);
      if last.Some? then front + [last.value] else front
  }

  function AtMost<T>(s: seq<T>, n: nat): seq<T> { if |s| <= n then s else s[..n] }

  /** A reply in parts keeps the first of them, and no fewer than there are room for. */
  lemma FirstPartsAreKept(s: seq<Text>, n: nat)
    ensures AtMost(s, n) <= s && |AtMost(s, n)| == Min(|s|, n)
  {
  }

  lemma TrimmedOne(value: Text, maxChars: int)
    ensures Trimmed([value], maxChars)
            == if TrimReply(Some(value), maxChars).Some? then [TrimReply(Some(value), maxChars).value] else []
  {
    hide TrimReply;
    assert [value][..0] == [];
  }

  /** Every part is trimmed by itself, and stays where it was among the others. */
  lemma {:induction false} PartsAreTrimmedSeparately(a: seq<Text>, b: seq<Text>, maxChars: int)
    ensures Trimmed(a + b, maxChars) == Trimmed(a, maxChars) + Trimmed(b, maxChars)
  {
    hide TrimReply;
    if b == [] {
      assert a + b == a;
    } else {
      PartsAreTrimmedSeparately(a, b[..|b| - 1], maxChars);
      assert (a + b)[..|a + b| - 1] == a + b[..|b| - 1];
    }
  }

  lemma {:induction false} TrimmedGrows(values: seq<Text>, maxChars: int, n: nat)
    requires n <= |values|
    ensures Trimmed(values[..n], maxChars) <= Trimmed(values, maxChars)
  {
    hide TrimReply;
    if n < |values| {
      TrimmedGrows(values[..|values| - 1], maxChars, n);
      assert values[..|values| - 1][..n] == values[..n];
    } else {
      assert values[..n] == values;
    }
  }

  /** The first parts that say something, as many as the surface takes and at least one. */
  method TrimParts(values: seq<Text>, maxChars: int, maxParts: int) returns (out: seq<Text>)
    ensures out == AtMost(Trimmed(values, maxChars), Max(1, maxParts))
  {
    hide TrimReply;
    out := [];
    for i := 0 to |values|
      invariant out == Trimmed(values[..i], maxChars) && |out| <= Max(1, maxParts)
    {
      if |out| >= Max(1, maxParts) {
        TrimmedGrows(values, maxChars, i);
        break;
      }
      var trimmed := TrimReply(Some(values[i]), maxChars);
      assert values[..i + 1][..i] == values[..i];
      if trimmed.Some? {
        out := out + [trimmed.value];
      }
    }
    assert values[..|values|] == values;
  }

  lemma {:induction false} TrimmedPartsFit(values: seq<Text>, maxChars: int, part: Text)
    requires part in Trimmed(values, maxChars)
    ensures Fits(part, maxChars)
    ensures exists value | value in values :: TrimReply(Some(value), maxChars) == Some(part)
  {
    var front, last := values[..|values| - 1], values[|values| - 1];
    if part in Trimmed(front, maxChars) {
      TrimmedPartsFit(front, maxChars, part);
    } else {
      assert last in values;
      RepliesFit(last, maxChars);
    }
  }
}
