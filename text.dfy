/** The Python `str` operations that the sentence code relies on, over `string` (= seq<char>). */
module Text {

  /** `s.startswith(p)`. `re.match(re.escape(p), s)` decides exactly this: an escaped
      pattern matches only the literal text, and `re.match` anchors it at the start. */
  predicate StartsWith(s: string, p: string) {
    |p| <= |s| && s[..|p|] == p
  }

  predicate EndsWith(s: string, p: string) {
    |p| <= |s| && s[|s| - |p|..] == p
  }

  /** A text ends with whatever its last piece ends with. */
  lemma EndsWithAppend(a: string, b: string, p: string)
    requires EndsWith(b, p)
    ensures EndsWith(a + b, p)
  {
    assert (a + b)[|a + b| - |p|..] == b[|b| - |p|..];
  }

  /** `sep.join(items)` */
  function Join(sep: string, items: seq<string>): string
  {
    if |items| == 0 then ""
    else if |items| == 1 then items[0]
    else items[0] + sep + Join(sep, items[1..])
  }

  /** Appending one item to a joined list adds one separator and the item. */
  lemma {:induction false} JoinSnoc(sep: string, items: seq<string>, x: string)
    ensures Join(sep, items + [x]) == if items == [] then x else Join(sep, items) + sep + x
  {
    if |items| == 0 {
      assert items + [x] == [x];
    } else if |items| == 1 {
      assert items + [x] == [items[0], x];
      assert [items[0], x][1..] == [x];
    } else {
      assert (items + [x])[1..] == items[1..] + [x];
      JoinSnoc(sep, items[1..], x);
    }
  }

  /** The English list rule used for term names and for postfix phrases:
      "a", "a and b", "a, b, and c" (serial comma before the last item). */
  function EnglishList(items: seq<string>): (r: string)
    requires |items| > 0
  {
    if |items| > 2 then Join(", ", items[..|items| - 1]) + ", and " + items[|items| - 1]
    else if |items| > 1 then Join(" and ", items)
    else items[0]
  }

  /** From four items on, an English list is the first item, a comma, and the English list
      of the rest: the serial comma is kept all the way down. */
  lemma OxfordCons(items: seq<string>)
    requires |items| >= 4
    ensures EnglishList(items) == items[0] + ", " + EnglishList(items[1..])
  {
    var n := |items|;
    assert items[..n - 1][1..] == items[1..][..n - 2];
    assert items[1..][n - 2] == items[n - 1];
  }

  /** `i` is a position at which `p` occurs in `s`. */
  predicate OccursAt(s: string, p: string, i: int) {
    0 <= i && i + |p| <= |s| && s[i..i + |p|] == p
  }

  /** Python's `p in s` for strings. */
  predicate Contains(s: string, p: string) {
    exists i | 0 <= i <= |s| :: OccursAt(s, p, i)
  }

  /** Every item of an English list occurs in it. */
  lemma EnglishListContains(items: seq<string>, k: int)
    requires 0 <= k < |items|
    ensures Contains(EnglishList(items), items[k])
  {
    var n := |items|;
    if n > 2 {
      if k == n - 1 {
        var front := Join(", ", items[..n - 1]) + ", and ";
        assert OccursAt(EnglishList(items), items[k], |front|);
      } else {
        var i := JoinContains(", ", items[..n - 1], k);
        assert OccursAt(EnglishList(items), items[k], i);
      }
    } else if n > 1 {
      var i := JoinContains(" and ", items, k);
      assert OccursAt(EnglishList(items), items[k], i);
    } else {
      assert OccursAt(EnglishList(items), items[k], 0);
    }
  }

  /** Every item of a joined list occurs in it; returns a position of item `k`. */
  lemma {:induction false} JoinContains(sep: string, items: seq<string>, k: int) returns (i: int)
    requires 0 <= k < |items|
    ensures OccursAt(Join(sep, items), items[k], i)
  {
    if |items| == 1 {
      i := 0;
    } else if k == 0 {
      i := 0;
      assert Join(sep, items) == items[0] + (sep + Join(sep, items[1..]));
    } else {
      var j := JoinContains(sep, items[1..], k - 1);
      i := |items[0]| + |sep| + j;
      var s := Join(sep, items);
      assert s == (items[0] + sep) + Join(sep, items[1..]);
      assert s[i..i + |items[k]|] == Join(sep, items[1..])[j..j + |items[k]|];
    }
  }

  /** `s.replace(p, "")`: scanning left to right, every non-overlapping occurrence of `p` is
      removed, wherever it is; an empty `p` leaves `s` as it is. */
  function RemoveAll(s: string, p: string): (r: string)
    ensures |r| <= |s|
    decreases |s|
  {
    if p == [] || |s| < |p| then s
    else if s[..|p|] == p then RemoveAll(s[|p|..], p)
    else [s[0]] + RemoveAll(s[1..], p)
  }

  /** Where `p` does not occur, `RemoveAll` changes nothing. */
  lemma {:induction false} RemoveAllAbsent(s: string, p: string)
    requires forall i :: !OccursAt(s, p, i)
    ensures RemoveAll(s, p) == s
    decreases |s|
  {
    if p == [] || |s| < |p| {
    } else {
      assert !OccursAt(s, p, 0);
      forall i ensures !OccursAt(s[1..], p, i) {
        if 0 <= i && i + |p| <= |s| - 1 {
          assert s[1..][i..i + |p|] == s[i + 1..i + 1 + |p|];
          assert !OccursAt(s, p, i + 1);
        }
      }
      RemoveAllAbsent(s[1..], p);
    }
  }

  /** `str.isspace()` for one character. */
  predicate IsSpace(c: char) {
    c == ' ' || c == '\t' || c == '\n' || c == '\r' || c == '\U{000B}' || c == '\U{000C}'
    || ('\U{001C}' <= c <= '\U{001F}') || c == '\U{0085}' || c == '\U{00A0}' || c == '\U{1680}'
    || ('\U{2000}' <= c <= '\U{200A}') || c == '\U{2028}' || c == '\U{2029}' || c == '\U{202F}'
    || c == '\U{205F}' || c == '\U{3000}'
  }

  function TrimLeft(s: string): string {
    if |s| > 0 && IsSpace(s[0]) then TrimLeft(s[1..]) else s
  }

  function TrimRight(s: string): string {
    if |s| > 0 && IsSpace(s[|s| - 1]) then TrimRight(s[..|s| - 1]) else s
  }

  /** `s.strip()` */
  function Strip(s: string): string {
    TrimRight(TrimLeft(s))
  }

  /** `len(s.strip().split(" ")) == 1`: splitting on " " yields one piece more than there
      are spaces, so the test holds exactly when the stripped text has no space. */
  predicate IsSingleWord(s: string) {
    ' ' !in Strip(s)
  }

  function DigitChar(d: nat): char
    requires d < 10
  {
    "0123456789"[d]
  }

  function NatToString(n: nat): (r: string)
    ensures |r| > 0
  {
    if n < 10 then [DigitChar(n)] else NatToString(n / 10) + [DigitChar(n % 10)]
  }

  /** `str(i)` for an int. */
  function IntToString(i: int): string {
    if i < 0 then "-" + NatToString(-i) else NatToString(i)
  }
}
