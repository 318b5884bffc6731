/** Temporary passwords: the character draws, the in-place shuffle, and the password policy. */
module Passwords {

  // ---------------------------------------------------------------- the shuffle

  function Swapped<T>(s: seq<T>, i: nat, j: nat): seq<T>
    requires i < |s| && j < |s|
  {
    s[i := s[j]][j := s[i]]
  }

  /** Draws of the shuffle of `n` elements: one index in 0..i for each step i = n-1, ..., 1. */
  predicate Draws(js: seq<nat>, n: nat)
  {
    |js| == n && forall i :: 0 <= i < n ==> js[i] <= i
  }

  /** The steps i, i-1, ..., 1 of the shuffle. */
  function Shuffled<T>(s: seq<T>, js: seq<nat>, i: nat): (r: seq<T>)
    requires Draws(js, |s|) && (i < |s| || i == 0)
    ensures |r| == |s|
    decreases i
  {
    if i == 0 then s else Shuffled(Swapped(s, i, js[i]), js, i - 1)
  }

  function Shuffle<T>(s: seq<T>, js: seq<nat>): seq<T>
    requires Draws(js, |s|)
  {
    Shuffled(s, js, if |s| == 0 then 0 else |s| - 1)
  }

  method ShuffleInPlace<T>(a: array<T>, js: seq<nat>)
    requires Draws(js, a.Length)
    modifies a
    ensures a[..] == Shuffle(old(a[..]), js)
  {
    if a.Length > 0 {
      var i := a.Length - 1;
      while i > 0
        invariant 0 <= i < a.Length
        invariant Shuffled(a[..], js, i) == Shuffle(old(a[..]), js)
      {
        var j := js[i];
        ghost var before := a[..];
        a[i], a[j] := a[j], a[i];
        assert a[..] == Swapped(before, i, j);
        i := i - 1;
      }
    }
  }

  lemma SwapKeepsElements<T>(s: seq<T>, i: nat, j: nat)
    requires i < |s| && j < |s|
    ensures multiset(Swapped(s, i, j)) == multiset(s)
  {
  }

  /** The shuffle loses and repeats nothing. */
  lemma {:induction false} ShuffleKeepsElements<T>(s: seq<T>, js: seq<nat>, i: nat)
    requires Draws(js, |s|) && (i < |s| || i == 0)
    ensures multiset(Shuffled(s, js, i)) == multiset(s)
    decreases i
  {
    if i == 0 {
    } else {
      SwapKeepsElements(s, i, js[i]);
      ShuffleKeepsElements(Swapped(s, i, js[i]), js, i - 1);
    }
  }

  /** Steps i, ..., 1 leave everything beyond `i` in place. */
  lemma {:induction false} ShuffleKeepsRest<T>(s: seq<T>, js: seq<nat>, i: nat, k: nat)
    requires Draws(js, |s|) && i < k < |s|
    ensures Shuffled(s, js, i)[k] == s[k]
    decreases i
  {
    if i == 0 {
    } else {
      ShuffleKeepsRest(Swapped(s, i, js[i]), js, i - 1, k);
    }
  }

  predicate DistinctElements<T(==)>(s: seq<T>)
  {
    forall i, j :: 0 <= i < j < |s| ==> s[i] != s[j]
  }

  /** Two draw sequences that agree except at the unused index 0. */
  predicate SameDraws(js: seq<nat>, ks: seq<nat>, i: nat)
    requires i < |js| && i < |ks|
  {
    forall k :: 1 <= k <= i ==> js[k] == ks[k]
  }

  lemma SwappedAt<T>(s: seq<T>, i: nat, j: nat)
    requires i < |s| && j < |s|
    ensures Swapped(s, i, j)[i] == s[j]
  {
  }

  /** The shuffle puts the element drawn at step `i` at position `i` and leaves it there. */
  lemma PlacedAt<T>(s: seq<T>, js: seq<nat>, i: nat)
    requires Draws(js, |s|) && 0 < i < |s|
    ensures Shuffled(s, js, i)[i] == s[js[i]]
  {
    SwappedAt(s, i, js[i]);
    ShuffleKeepsRest(Swapped(s, i, js[i]), js, i - 1, i);
  }

  lemma SameIndex<T>(s: seq<T>, a: nat, b: nat)
    requires DistinctElements(s) && a < |s| && b < |s| && s[a] == s[b]
    ensures a == b
  {
  }

  lemma {:induction false} DrawsRecovered<T>(s: seq<T>, js: seq<nat>, ks: seq<nat>, i: nat)
    requires DistinctElements(s) && i < |s| && Draws(js, |s|) && Draws(ks, |s|)
    requires Shuffled(s, js, i) == Shuffled(s, ks, i)
    ensures SameDraws(js, ks, i)
    decreases i
  {
    if i == 0 {
    } else {
      PlacedAt(s, js, i);
      PlacedAt(s, ks, i);
      SameIndex(s, js[i], ks[i]);
      SwapKeepsDistinct(s, i, js[i]);
      DrawsRecovered(Swapped(s, i, js[i]), js, ks, i - 1);
    }
  }

  lemma SwapKeepsDistinct<T>(s: seq<T>, i: nat, j: nat)
    requires DistinctElements(s) && i < |s| && j < |s|
    ensures DistinctElements(Swapped(s, i, j))
  {
  }

  /** Where a permutation `p` of `s` puts things: element `x` of `s` is among the first i + 1
      when `p` and `s` agree beyond `i` and `x` is at position `i` of `p`. */
  lemma NotYetPlaced<T>(s: seq<T>, p: seq<T>, i: nat) returns (j: nat)
    requires DistinctElements(s) && DistinctElements(p) && |p| == |s| && i < |s|
    requires multiset(p) == multiset(s) && forall k :: i < k < |s| ==> p[k] == s[k]
    ensures j <= i && s[j] == p[i]
  {
    assert p[i] in multiset(p);
    assert p[i] in multiset(s);
    j :| 0 <= j < |s| && s[j] == p[i];
  }

  lemma {:induction false} DrawsExist<T>(s: seq<T>, p: seq<T>, js: seq<nat>, i: nat) returns (ks: seq<nat>)
    requires DistinctElements(s) && DistinctElements(p) && |p| == |s| && i < |s| && Draws(js, |s|)
    requires multiset(p) == multiset(s) && forall k :: i < k < |s| ==> p[k] == s[k]
    ensures Draws(ks, |s|) && Shuffled(s, ks, i) == p
    ensures forall k :: i < k < |s| ==> ks[k] == js[k]
    decreases i
  {
    var j := NotYetPlaced(s, p, i);
    if i == 0 {
      ks := js;
      assert p == s;
    } else {
      SwapKeepsElements(s, i, j);
      SwapKeepsDistinct(s, i, j);
      ks := DrawsExist(Swapped(s, i, j), p, js[i := j], i - 1);
    }
  }

  /** The shuffle of distinct elements is a bijection between draws and orders: different draws
      give different orders, and every order of the elements comes from some draws. */
  lemma ShuffleIsBijective<T>(s: seq<T>, p: seq<T>) returns (js: seq<nat>)
    requires DistinctElements(s) && |s| > 0
    requires |p| == |s| && multiset(p) == multiset(s) && DistinctElements(p)
    ensures Draws(js, |s|) && Shuffle(s, js) == p
    ensures forall ks: seq<nat> :: Draws(ks, |s|) && Shuffle(s, ks) == p ==> SameDraws(ks, js, |s| - 1)
  {
    js := DrawsExist(s, p, seq(|s|, _ => 0), |s| - 1);
    forall ks: seq<nat> | Draws(ks, |s|) && Shuffle(s, ks) == p
      ensures SameDraws(ks, js, |s| - 1)
    {
      DrawsRecovered(s, ks, js, |s| - 1);
    }
  }

  // ---------------------------------------------------------------- the policy

  datatype Rule = MinLength | NeedsUppercase | NeedsLowercase | NeedsNumber | NeedsSpecial

  const SPECIALS := "!@#$%^&*(),.?\":{}|<>"

  predicate Upper(c: char) { 'A' <= c <= 'Z' }

  predicate Lower(c: char) { 'a' <= c <= 'z' }

  predicate Number(c: char) { '0' <= c <= '9' }

  predicate Special(c: char) { c in SPECIALS }

  predicate Follows(password: string, rule: Rule)
  {
    match rule
    case MinLength => |password| >= 8
    case NeedsUppercase => exists i :: 0 <= i < |password| && Upper(password[i])
    case NeedsLowercase => exists i :: 0 <= i < |password| && Lower(password[i])
    case NeedsNumber => exists i :: 0 <= i < |password| && Number(password[i])
    case NeedsSpecial => exists i :: 0 <= i < |password| && Special(password[i])
  }

  const RULES := [MinLength, NeedsUppercase, NeedsLowercase, NeedsNumber, NeedsSpecial]

  /** The rules a password breaks, in the order of the policy. */
  function Broken(password: string, rules: seq<Rule>): seq<Rule>
  {
    if rules == [] then []
    else (if Follows(password, rules[0]) then [] else [rules[0]]) + Broken(password, rules[1..])
  }

  lemma {:induction false} BrokenIsComplete(password: string, rules: seq<Rule>)
    ensures forall r :: r in Broken(password, rules) <==> r in rules && !Follows(password, r)
  {
    if rules == [] {
    } else {
      BrokenIsComplete(password, rules[1..]);
    }
  }

  lemma EveryRule(password: string)
    ensures Broken(password, RULES) == [] <==> forall r: Rule :: Follows(password, r)
  {
    BrokenIsComplete(password, RULES);
    forall r: Rule
      ensures r in RULES
    {
      match r
      case MinLength => assert RULES[0] == r;
      case NeedsUppercase => assert RULES[1] == r;
      case NeedsLowercase => assert RULES[2] == r;
      case NeedsNumber => assert RULES[3] == r;
      case NeedsSpecial => assert RULES[4] == r;
    }
    if Broken(password, RULES) != [] {
      assert Broken(password, RULES)[0] in Broken(password, RULES);
    }
  }

  predicate HasBetween(password: string, low: char, high: char)
  {
    exists i :: 0 <= i < |password| && low <= password[i] <= high
  }

  predicate HasOneOf(password: string, characters: string)
  {
    exists i :: 0 <= i < |password| && password[i] in characters
  }

  lemma RulesSpelledOut(password: string)
    ensures Follows(password, MinLength) <==> |password| >= 8
    ensures Follows(password, NeedsUppercase) <==> HasBetween(password, 'A', 'Z')
    ensures Follows(password, NeedsLowercase) <==> HasBetween(password, 'a', 'z')
    ensures Follows(password, NeedsNumber) <==> HasBetween(password, '0', '9')
    ensures Follows(password, NeedsSpecial) <==> HasOneOf(password, "!@#$%^&*(),.?\":{}|<>")
  {
  }

  /** A password is valid exactly when it has at least eight characters, among them an upper-case letter,
      a lower-case letter, a digit and a special character. */
  lemma ValidExactly(password: string)
    ensures Broken(password, RULES) == [] <==>
      && |password| >= 8 && HasBetween(password, 'A', 'Z') && HasBetween(password, 'a', 'z')
      && HasBetween(password, '0', '9') && HasOneOf(password, "!@#$%^&*(),.?\":{}|<>")
  {
    EveryRule(password);
    RulesSpelledOut(password);
    assert (forall r: Rule :: Follows(password, r)) <==>
      && Follows(password, MinLength) && Follows(password, NeedsUppercase) && Follows(password, NeedsLowercase)
      && Follows(password, NeedsNumber) && Follows(password, NeedsSpecial);
  }

  // ---------------------------------------------------------------- temporary passwords

  const UPPER := "ABCDEFGHIJKLMNOPQRSTUVWXYZ"
  const LOWER := "abcdefghijklmnopqrstuvwxyz"
  const NUMBERS := "0123456789"
  const SPECIAL := "!@#$%&*"
  const ALL := UPPER + LOWER + NUMBERS + SPECIAL

  /** Random picks: one from each class, then eight from all characters. */
  predicate Picks(picks: seq<nat>)
  {
    && |picks| == 12 && picks[0] < |UPPER| && picks[1] < |LOWER| && picks[2] < |NUMBERS| && picks[3] < |SPECIAL|
    && forall i :: 4 <= i < 12 ==> picks[i] < |ALL|
  }

  function Picked(picks: seq<nat>): string
    requires Picks(picks)
  {
    [UPPER[picks[0]], LOWER[picks[1]], NUMBERS[picks[2]], SPECIAL[picks[3]]]
    + seq(8, i requires 0 <= i < 8 => ALL[picks[i + 4]])
  }

  method GenerateTemporaryPassword(picks: seq<nat>, js: seq<nat>) returns (password: string)
    requires Picks(picks) && Draws(js, 12)
    ensures password == Shuffle(Picked(picks), js)
  {
    var pass := new char[12];
    pass[0], pass[1], pass[2], pass[3] := UPPER[picks[0]], LOWER[picks[1]], NUMBERS[picks[2]], SPECIAL[picks[3]];
    for i := 4 to 12
      invariant pass[..i] == Picked(picks)[..i]
    {
      pass[i] := ALL[picks[i]];
    }
    assert pass[..] == Picked(picks);
    ShuffleInPlace(pass, js);
    return pass[..];
  }

  lemma ClassOfPick(k: nat)
    ensures k < |UPPER| ==> Upper(UPPER[k])
    ensures k < |LOWER| ==> Lower(LOWER[k])
    ensures k < |NUMBERS| ==> Number(NUMBERS[k])
    ensures k < |SPECIAL| ==> Special(SPECIAL[k])
  {
    assert SPECIALS[0] == '!' && SPECIALS[1] == '@' && SPECIALS[2] == '#' && SPECIALS[3] == '$'
      && SPECIALS[4] == '%' && SPECIALS[6] == '&' && SPECIALS[7] == '*';
  }

  lemma Somewhere(s: string, t: string, i: nat) returns (j: nat)
    requires i < |s| && multiset(s) == multiset(t)
    ensures j < |t| && t[j] == s[i]
  {
    assert s[i] in multiset(s);
    assert s[i] in multiset(t);
    j :| 0 <= j < |t| && t[j] == s[i];
  }

  /** Whatever the random picks and draws, a temporary password has 12 characters and is valid. */
  lemma TemporaryPasswordValid(picks: seq<nat>, js: seq<nat>)
    requires Picks(picks) && Draws(js, 12)
    ensures |Shuffle(Picked(picks), js)| == 12
    ensures Broken(Shuffle(Picked(picks), js), RULES) == []
  {
    var drawn := Picked(picks);
    var password := Shuffle(drawn, js);
    ShuffleKeepsElements(drawn, js, 11);
    ClassOfPick(picks[0]);
    ClassOfPick(picks[1]);
    ClassOfPick(picks[2]);
    ClassOfPick(picks[3]);
    var upper := Somewhere(drawn, password, 0);
    var lower := Somewhere(drawn, password, 1);
    var number := Somewhere(drawn, password, 2);
    var special := Somewhere(drawn, password, 3);
    assert Upper(password[upper]) && Lower(password[lower]) && Number(password[number]) && Special(password[special]);
    EveryRule(password);
  }
}
