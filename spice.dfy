/** The spice classifier (isHotDish): a case-insensitive substring match of
    the dish name against a fixed word list. */
module Spice {

  /** Lower-casing of one character; only the ASCII letters A to Z change. */
  function LowerChar(ch: char): char
  {
    if 'A' <= ch <= 'Z' then (ch as int - 'A' as int + 'a' as int) as char else ch
  }

  /** Upper-casing of one character; only the ASCII letters a to z change. */
  function UpperChar(ch: char): char
  {
    if 'a' <= ch <= 'z' then (ch as int - 'a' as int + 'A' as int) as char else ch
  }

  /** toLowerCase: each upper-case ASCII letter becomes its small letter,
      which lies 32 code points above it; no upper-case ASCII letter
      remains, and every other character is kept. */
  function Lower(s: string): (r: string)
    ensures |r| == |s|
    ensures forall i :: 0 <= i < |s| && 'A' <= s[i] <= 'Z' ==> r[i] == (s[i] as int + 32) as char && 'a' <= r[i] <= 'z'
    ensures forall i :: 0 <= i < |r| ==> !('A' <= r[i] <= 'Z')
    ensures forall i :: 0 <= i < |s| && !('A' <= s[i] <= 'Z') ==> r[i] == s[i]
  {
    seq(|s|, i requires 0 <= i < |s| => LowerChar(s[i]))
  }

  function Upper(s: string): (r: string)
    ensures |r| == |s|
  {
    seq(|s|, i requires 0 <= i < |s| => UpperChar(s[i]))
  }

  /** w occurs in s starting at index i. */
  predicate OccursAt(s: string, w: string, i: nat)
  {
    i + |w| <= |s| && s[i..i + |w|] == w
  }

  /** String.prototype.includes: w occurs somewhere in s (the empty word
      occurs everywhere). */
  function Contains(s: string, w: string): (b: bool)
    ensures b ==> |w| <= |s|
    ensures w == [] ==> b
    decreases |s|
  {
    if |s| < |w| then false
    else s[..|w|] == w || Contains(s[1..], w)
  }

  /** Contains agrees with the reference definition by occurrence index. */
  lemma {:induction false} ContainsIff(s: string, w: string)
    ensures Contains(s, w) <==> exists i: nat :: OccursAt(s, w, i)
    decreases |s|
  {
    if |s| < |w| {
      forall i: nat ensures !OccursAt(s, w, i) { }
    } else if s[..|w|] == w {
      assert OccursAt(s, w, 0);
    } else {
      ContainsIff(s[1..], w);
      if Contains(s[1..], w) {
        var i: nat :| OccursAt(s[1..], w, i);
        assert s[1..][i..i + |w|] == s[i + 1..i + 1 + |w|];
        assert OccursAt(s, w, i + 1);
      } else {
        forall i: nat | OccursAt(s, w, i) ensures false {
          if i > 0 {
            assert s[1..][i - 1..i - 1 + |w|] == s[i..i + |w|];
            assert OccursAt(s[1..], w, i - 1);
          }
        }
      }
    }
  }

  /** The words that mark a dish as hot, without the redundant "(hot)". */
  const HotWords: seq<string> := ["hot", "spicy", "szechuan", "kung pao", "hunan", "curry"]

  /** isHotDish, with its seven disjuncts as written. */
  function IsHotDish(name: string): (b: bool)
    ensures forall w :: w in HotWords && Contains(Lower(name), w) ==> b
    ensures b ==> |name| >= 3
  {
    var n := Lower(name);
    Contains(n, "(hot)") || Contains(n, "hot") || Contains(n, "spicy") ||
    Contains(n, "szechuan") || Contains(n, "kung pao") || Contains(n, "hunan") ||
    Contains(n, "curry")
  }

  /** Every name containing "(hot)" contains "hot". */
  lemma ParenthesisedHotSubsumed(s: string)
    ensures Contains(s, "(hot)") ==> Contains(s, "hot")
  {
    ContainsIff(s, "(hot)");
    ContainsIff(s, "hot");
    if Contains(s, "(hot)") {
      var i: nat :| OccursAt(s, "(hot)", i);
      var occurrence := s[i..i + 5];
      assert occurrence == "(hot)";
      assert s[i + 1..i + 4] == "hot" by {
        assert |s[i + 1..i + 4]| == 3;
        forall k | 0 <= k < 3 ensures s[i + 1..i + 4][k] == "hot"[k] {
          assert s[i + 1..i + 4][k] == occurrence[k + 1];
        }
      }
      assert OccursAt(s, "hot", i + 1);
    }
  }

  /** isHotDish(name) holds exactly when the lower-cased name contains one of
      the six hot words. */
  lemma IsHotDishIff(name: string)
    ensures IsHotDish(name) <==> exists w :: w in HotWords && Contains(Lower(name), w)
  {
    var n := Lower(name);
    ParenthesisedHotSubsumed(n);
    assert HotWords == ["hot", "spicy", "szechuan", "kung pao", "hunan", "curry"];
    if IsHotDish(name) {
      var k := if Contains(n, "hot") then 0 else if Contains(n, "spicy") then 1
               else if Contains(n, "szechuan") then 2 else if Contains(n, "kung pao") then 3
               else if Contains(n, "hunan") then 4 else 5;
      assert HotWords[k] in HotWords && Contains(n, HotWords[k]);
    }
  }

  /** Two names that differ only in the case of their letters. */
  predicate SameUpToCase(s: string, t: string)
  {
    |s| == |t| && forall i :: 0 <= i < |s| ==> LowerChar(s[i]) == LowerChar(t[i])
  }

  /** The classification ignores case: changing the case of any letters of a
      name does not change whether the dish is hot. */
  lemma IsHotDishIgnoresCase(s: string, t: string)
    requires SameUpToCase(s, t)
    ensures IsHotDish(s) == IsHotDish(t)
  {
    assert Lower(s) == Lower(t);
  }

  /** In particular the all-upper-case and all-lower-case spellings of a name
      classify like the name itself. */
  lemma IsHotDishOfUpperAndLower(s: string)
    ensures IsHotDish(Upper(s)) == IsHotDish(s)
    ensures IsHotDish(Lower(s)) == IsHotDish(s)
  {
    forall i | 0 <= i < |s| ensures LowerChar(Upper(s)[i]) == LowerChar(s[i]) { }
    IsHotDishIgnoresCase(Upper(s), s);
    forall i | 0 <= i < |s| ensures LowerChar(Lower(s)[i]) == LowerChar(s[i]) { }
    IsHotDishIgnoresCase(Lower(s), s);
  }
}
