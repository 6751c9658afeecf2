/** The text of a GO sentence: the English list of its term names between a prefix and a
    postfix (`compose_go_sentence`, `_get_single_go_sentence`), and the merge of several
    postfix phrases into one (`GOSentencesCollection.merge_postfix_phrases`). */
module Sentences {
  import opened Wrappers
  import opened Text

  /** The `GOSentence` named tuple. */
  datatype GOSentence = GOSentence(
    prefix: string,
    terms: seq<string>,
    termIds: map<string, string>,
    postfix: string,
    text: string,
    goAspect: string,
    evidenceGroup: string)

  /** Prefix and postfix phrase for each (aspect, evidence group). */
  type PrePostfixMap = map<(string, string), (string, string)>

  /** The postfix as it is appended: with a leading space, or nothing when it is empty. */
  function PostfixTail(postfix: string): (r: string)
    ensures postfix == "" ==> r == ""
    ensures postfix != "" ==> |r| == |postfix| + 1 && r[0] == ' ' && r[1..] == postfix
  {
    if postfix != "" then " " + postfix else ""
  }

  /** `compose_go_sentence(prefix, names, postfix)`; the names must be non-empty because the
      first one is read. */
  function ComposeGoSentence(prefix: string, names: seq<string>, postfix: string): (r: string)
    requires |names| > 0
    ensures StartsWith(r, prefix + " ")
    ensures postfix != "" ==> EndsWith(r, " " + postfix)
    ensures postfix == "" ==> EndsWith(r, names[|names| - 1])
    ensures forall k | 0 <= k < |names| :: Contains(r, names[k])
  {
    var list := EnglishList(names);
    var tail := PostfixTail(postfix);
    ComposedContains(prefix, list, tail, names);
    ComposedEnds(prefix, list, postfix, names);
    prefix + " " + list + tail
  }

  /** Every name of the list occurs in the sentence built around it. */
  lemma ComposedContains(prefix: string, list: string, tail: string, names: seq<string>)
    requires |names| > 0 && list == EnglishList(names)
    ensures StartsWith(prefix + " " + list + tail, prefix + " ")
    ensures forall k | 0 <= k < |names| :: Contains(prefix + " " + list + tail, names[k])
  {
    var r := prefix + " " + list + tail;
    assert r[..|prefix + " "|] == prefix + " ";
    forall k | 0 <= k < |names| ensures Contains(r, names[k]) {
      EnglishListContains(names, k);
      var i :| 0 <= i <= |list| && OccursAt(list, names[k], i);
      var at := |prefix| + 1 + i;
      assert r[at..at + |names[k]|] == list[i..i + |names[k]|];
      assert OccursAt(r, names[k], at);
    }
  }

  /** The sentence ends with its postfix, or with its last name when there is no postfix. */
  lemma ComposedEnds(prefix: string, list: string, postfix: string, names: seq<string>)
    requires |names| > 0 && list == EnglishList(names)
    ensures postfix != "" ==> EndsWith(prefix + " " + list + PostfixTail(postfix), " " + postfix)
    ensures postfix == "" ==> EndsWith(prefix + " " + list + PostfixTail(postfix), names[|names| - 1])
  {
    var tail := PostfixTail(postfix);
    if postfix != "" {
      assert EndsWith(tail, " " + postfix);
      EndsWithAppend(prefix + " " + list, tail, " " + postfix);
    } else {
      EnglishListEndsWithLast(names);
      EndsWithAppend(prefix + " ", list, names[|names| - 1]);
      assert prefix + " " + list + tail == prefix + " " + list;
    }
  }

  /** An English list ends with its last item. */
  lemma EnglishListEndsWithLast(items: seq<string>)
    requires |items| > 0
    ensures EndsWith(EnglishList(items), items[|items| - 1])
  {
    var n := |items|;
    var last := items[n - 1];
    if n > 2 {
      EndsWithAppend(Join(", ", items[..n - 1]) + ", and ", last, last);
    } else if n == 2 {
      assert Join(" and ", items[1..]) == last;
      EndsWithAppend(items[0] + " and ", last, last);
    }
  }

  /** The three shapes of the sentence: one term, two terms joined by "and", or three and more
      terms separated by commas with ", and " before the last. */
  lemma ComposeShapes(prefix: string, names: seq<string>, postfix: string)
    requires |names| > 0
    ensures |names| == 1 ==> ComposeGoSentence(prefix, names, postfix) == prefix + " " + names[0] + PostfixTail(postfix)
    ensures |names| == 2 ==>
              ComposeGoSentence(prefix, names, postfix) == prefix + " " + names[0] + " and " + names[1] + PostfixTail(postfix)
    ensures |names| >= 3 ==>
              ComposeGoSentence(prefix, names, postfix) ==
                prefix + " " + Join(", ", names[..|names| - 1]) + ", and " + names[|names| - 1] + PostfixTail(postfix)
  {
    var n := |names|;
    var tail := PostfixTail(postfix);
    assert ComposeGoSentence(prefix, names, postfix) == prefix + " " + EnglishList(names) + tail;
    if n == 2 {
      assert Join(" and ", names[1..]) == names[1];
      var list := names[0] + " and " + names[1];
      assert EnglishList(names) == list;
      assert prefix + " " + list + tail == prefix + " " + names[0] + " and " + names[1] + tail;
    } else if n >= 3 {
      var front := Join(", ", names[..n - 1]);
      var list := front + ", and " + names[n - 1];
      assert EnglishList(names) == list;
      assert prefix + " " + list + tail == prefix + " " + front + ", and " + names[n - 1] + tail;
    }
  }

  /** `_get_single_go_sentence`: no sentence for no terms; otherwise the prefix and postfix of
      (aspect, group), which must be in the map, and the composed text. */
  function SingleGoSentence(names: seq<string>, ids: map<string, string>, aspect: string, group: string,
                            prepost: PrePostfixMap): (r: Outcome<Option<GOSentence>>)
    ensures names == [] <==> r == Ok(None)
    ensures names != [] && (aspect, group) !in prepost ==> r == Raised(KeyError)
    ensures names != [] && (aspect, group) in prepost ==>
              && r.Ok? && r.value.Some?
              && var s := r.value.value;
              && s.prefix == prepost[(aspect, group)].0 && s.postfix == prepost[(aspect, group)].1
              && s.terms == names && s.termIds == ids && s.goAspect == aspect && s.evidenceGroup == group
              && s.text == ComposeGoSentence(s.prefix, names, s.postfix)
  {
    if |names| > 0 then
      if (aspect, group) in prepost then
        var (prefix, postfix) := prepost[(aspect, group)];
        Ok(Some(GOSentence(prefix, names, ids, postfix, ComposeGoSentence(prefix, names, postfix), aspect, group)))
      else Raised(KeyError)
    else Ok(None)
  }

  // ---------------------------------------------------------------------------
  // merge_postfix_phrases
  // ---------------------------------------------------------------------------

  /** The position of the first shortest phrase: what a stable sort by length puts first. */
  function ShortestIndex(ps: seq<string>): (i: nat)
    requires |ps| > 0
    ensures i < |ps|
    ensures forall x | x in ps :: |ps[i]| <= |x|
    ensures forall j | 0 <= j < i :: |ps[j]| > |ps[i]|
  {
    if |ps| == 1 then 0
    else
      var j := ShortestIndex(ps[..|ps| - 1]);
      assert forall x | x in ps :: x in ps[..|ps| - 1] || x == ps[|ps| - 1];
      if |ps[|ps| - 1]| < |ps[j]| then |ps| - 1 else j
  }

  function Shortest(ps: seq<string>): (s: string)
    requires |ps| > 0
    ensures s in ps && forall x | x in ps :: |s| <= |x|
  {
    ps[ShortestIndex(ps)]
  }

  /** Every phrase has at position `idx` the letter `s` has there. */
  predicate AgreeAt(ps: seq<string>, s: string, idx: nat)
    requires idx < |s| && forall x | x in ps :: |s| <= |x|
  {
    forall x | x in ps :: x[idx] == s[idx]
  }

  /** Every phrase has at `idx` from its end the letter `s` has at `idx` from its end. */
  predicate AgreeFromEnd(ps: seq<string>, s: string, idx: nat)
    requires idx < |s| && forall x | x in ps :: |s| <= |x|
  {
    forall x | x in ps :: x[|x| - idx - 1] == s[|s| - idx - 1]
  }

  /** How far, from `i` on, the phrases agree with `s` letter by letter from the front. */
  function CommonPrefixLen(ps: seq<string>, s: string, i: nat): (n: nat)
    requires i <= |s| && forall x | x in ps :: |s| <= |x|
    ensures i <= n <= |s|
    decreases |s| - i
  {
    if i < |s| && AgreeAt(ps, s, i) then CommonPrefixLen(ps, s, i + 1) else i
  }

  /** How far, from `i` on, the phrases agree with `s` letter by letter from the back. */
  function CommonSuffixLen(ps: seq<string>, s: string, i: nat): (n: nat)
    requires i <= |s| && forall x | x in ps :: |s| <= |x|
    ensures i <= n <= |s|
    decreases |s| - i
  {
    if i < |s| && AgreeFromEnd(ps, s, i) then CommonSuffixLen(ps, s, i + 1) else i
  }

  /** `first_part`. */
  function FirstPart(ps: seq<string>): string
    requires |ps| > 0
  {
    var s := Shortest(ps);
    s[..CommonPrefixLen(ps, s, 0)]
  }

  /** `last_part`. */
  function LastPart(ps: seq<string>): string
    requires |ps| > 0
  {
    var s := Shortest(ps);
    s[|s| - CommonSuffixLen(ps, s, 0)..]
  }

  /** `new_phrases`: each phrase with every occurrence of the first part, then of the last
      part, removed. */
  function StripParts(ps: seq<string>, first: string, last: string): (r: seq<string>)
    ensures |r| == |ps|
    ensures forall i | 0 <= i < |ps| :: r[i] == RemoveAll(RemoveAll(ps[i], first), last)
  {
    if ps == [] then []
    else StripParts(ps[..|ps| - 1], first, last) + [RemoveAll(RemoveAll(ps[|ps| - 1], first), last)]
  }

  /** The last part as it ends the merged phrase: pluralised when it is one word. */
  function PluralTail(last: string, plural: string -> string): (r: string)
  {
    if IsSingleWord(last) then plural(last) else last
  }

  /** What `merge_postfix_phrases` returns. */
  function MergedPostfix(ps: seq<string>, plural: string -> string): string
    requires |ps| > 0
  {
    if |ps| > 1 then
      var first := FirstPart(ps);
      var last := LastPart(ps);
      first + EnglishList(StripParts(ps, first, last)) + PluralTail(last, plural)
    else ps[0]
  }

  /** `GOSentencesCollection.merge_postfix_phrases(phrases)`, with `inflect`'s `plural` as a
      parameter. One phrase comes back unchanged; several are merged by keeping their common
      leading and trailing letters once. */
  method MergePostfixPhrases(phrases: seq<string>, plural: string -> string) returns (r: string)
    requires |phrases| > 0
    ensures r == MergedPostfix(phrases, plural)
    ensures |phrases| == 1 ==> r == phrases[0]
  {
    if |phrases| > 1 {
      var shortest := Shortest(phrases);
      var firstPart := LeadingPart(phrases, shortest);
      var lastPart := TrailingPart(phrases, shortest);
      var newPhrases := StripParts(phrases, firstPart, lastPart);
      var tail := lastPart;
      if IsSingleWord(lastPart) {
        tail := plural(lastPart);
      }
      r := firstPart + EnglishList(newPhrases) + tail;
    } else {
      r := phrases[0];
    }
  }

  /** The loop building `first_part`: the letters of the shortest phrase, from the front, as
      long as every phrase has the same letter there. */
  method LeadingPart(phrases: seq<string>, shortest: string) returns (firstPart: string)
    requires |phrases| > 0 && shortest == Shortest(phrases)
    ensures firstPart == FirstPart(phrases)
  {
    firstPart := "";
    var idx := 0;
    while idx < |shortest|
      invariant 0 <= idx <= |shortest|
      invariant firstPart == shortest[..idx]
      invariant CommonPrefixLen(phrases, shortest, 0) == CommonPrefixLen(phrases, shortest, idx)
    {
      if AgreeAt(phrases, shortest, idx) {
        firstPart := firstPart + [shortest[idx]];
      } else {
        break;
      }
      idx := idx + 1;
    }
  }

  /** The loop building `last_part`: the letters of the shortest phrase, from the back, as long
      as every phrase has the same letter there. */
  method TrailingPart(phrases: seq<string>, shortest: string) returns (lastPart: string)
    requires |phrases| > 0 && shortest == Shortest(phrases)
    ensures lastPart == LastPart(phrases)
  {
    lastPart := "";
    var idx := 0;
    while idx < |shortest|
      invariant 0 <= idx <= |shortest|
      invariant lastPart == shortest[|shortest| - idx..]
      invariant CommonSuffixLen(phrases, shortest, 0) == CommonSuffixLen(phrases, shortest, idx)
    {
      var letter := shortest[|shortest| - idx - 1];
      if AgreeFromEnd(phrases, shortest, idx) {
        lastPart := [letter] + lastPart;
      } else {
        break;
      }
      idx := idx + 1;
    }
  }

  lemma {:induction false} CommonPrefixAgrees(ps: seq<string>, s: string, i: nat, k: nat)
    requires i <= |s| && forall x | x in ps :: |s| <= |x|
    requires i <= k < CommonPrefixLen(ps, s, i)
    ensures AgreeAt(ps, s, k)
    decreases |s| - i
  {
    if k > i {
      CommonPrefixAgrees(ps, s, i + 1, k);
    }
  }

  lemma {:induction false} CommonSuffixAgrees(ps: seq<string>, s: string, i: nat, k: nat)
    requires i <= |s| && forall x | x in ps :: |s| <= |x|
    requires i <= k < CommonSuffixLen(ps, s, i)
    ensures AgreeFromEnd(ps, s, k)
    decreases |s| - i
  {
    if k > i {
      CommonSuffixAgrees(ps, s, i + 1, k);
    }
  }

  /** The prefix count stops where some phrase disagrees with `s`. */
  lemma {:induction false} CommonPrefixStops(ps: seq<string>, s: string, i: nat)
    requires i <= |s| && forall x | x in ps :: |s| <= |x|
    ensures CommonPrefixLen(ps, s, i) < |s| ==> !AgreeAt(ps, s, CommonPrefixLen(ps, s, i))
    decreases |s| - i
  {
    if i < |s| && AgreeAt(ps, s, i) {
      CommonPrefixStops(ps, s, i + 1);
    }
  }

  /** The suffix count stops where some phrase disagrees with `s`. */
  lemma {:induction false} CommonSuffixStops(ps: seq<string>, s: string, i: nat)
    requires i <= |s| && forall x | x in ps :: |s| <= |x|
    ensures CommonSuffixLen(ps, s, i) < |s| ==> !AgreeFromEnd(ps, s, CommonSuffixLen(ps, s, i))
    decreases |s| - i
  {
    if i < |s| && AgreeFromEnd(ps, s, i) {
      CommonSuffixStops(ps, s, i + 1);
    }
  }

  /** The first part is the longest common prefix of the phrases that is no longer than the
      first shortest phrase. */
  lemma FirstPartIsLongestCommonPrefix(ps: seq<string>)
    requires |ps| > 0
    ensures forall x | x in ps :: StartsWith(x, FirstPart(ps))
    ensures var f := FirstPart(ps); var s := Shortest(ps);
            |f| < |s| ==> exists x | x in ps :: x[|f|] != s[|f|]
  {
    var s := Shortest(ps);
    var f := FirstPart(ps);
    forall x | x in ps ensures StartsWith(x, f) {
      forall k | 0 <= k < |f| ensures x[k] == f[k] {
        CommonPrefixAgrees(ps, s, 0, k);
      }
    }
    CommonPrefixStops(ps, s, 0);
  }

  /** The last part is the longest common suffix of the phrases that is no longer than the
      first shortest phrase. */
  lemma LastPartIsLongestCommonSuffix(ps: seq<string>)
    requires |ps| > 0
    ensures forall x | x in ps :: EndsWith(x, LastPart(ps))
    ensures var l := LastPart(ps); var s := Shortest(ps);
            |l| < |s| ==> exists x | x in ps :: x[|x| - |l| - 1] != s[|s| - |l| - 1]
  {
    var s := Shortest(ps);
    var l := LastPart(ps);
    forall x | x in ps ensures EndsWith(x, l) {
      forall k | 0 <= k < |l| ensures x[|x| - |l| + k] == l[k] {
        CommonSuffixAgrees(ps, s, 0, |l| - 1 - k);
      }
    }
    CommonSuffixStops(ps, s, 0);
  }

  /** The merged phrase starts with the first part and ends with the (possibly pluralised)
      last part, around the English list of the stripped phrases. */
  lemma MergedPostfixShape(ps: seq<string>, plural: string -> string)
    requires |ps| > 1
    ensures StartsWith(MergedPostfix(ps, plural), FirstPart(ps))
    ensures EndsWith(MergedPostfix(ps, plural), PluralTail(LastPart(ps), plural))
  {
    var first := FirstPart(ps);
    var list := EnglishList(StripParts(ps, first, LastPart(ps)));
    var tail := PluralTail(LastPart(ps), plural);
    var r := MergedPostfix(ps, plural);
    assert r == first + list + tail;
    Framed(first, list, tail);
  }

  /** A text made of three pieces starts with the first and ends with the last. */
  lemma Framed(a: string, b: string, c: string)
    ensures StartsWith(a + b + c, a) && EndsWith(a + b + c, c)
  {
    assert (a + b + c)[..|a|] == a;
    assert (a + b + c)[|a + b + c| - |c|..] == c;
  }
}
