/** The parameter matcher: does a build's or queue item's recorded parameter
    list contain every expected (key, value) pair, ignoring case? A key named
    TOKEN is not compared, but is met only by a non-empty list. */
module Matching {

  /** One recorded parameter, an element of `actions[0].parameters`. */
  datatype Param = Param(name: string, value: string)

  /** The expected parameters as the ordered entries of the parameter object. */
  type Expected = seq<(string, string)>

  /** `toUpperCase` on one character, restricted to ASCII. */
  function UpperChar(c: char): (u: char)
    ensures !('a' <= u <= 'z')
    ensures 'a' <= c <= 'z' ==> 'A' <= u <= 'Z' && u as int - 'A' as int == c as int - 'a' as int
    ensures !('a' <= c <= 'z') ==> u == c
  {
    if 'a' <= c <= 'z' then (c as int - 32) as char else c
  }

  /** `toUpperCase` on a string, character by character (ASCII only). */
  function Upper(s: string): (u: string)
    ensures |u| == |s|
    ensures forall i :: 0 <= i < |s| ==> u[i] == UpperChar(s[i])
  {
    seq(|s|, i requires 0 <= i < |s| => UpperChar(s[i]))
  }

  lemma UpperIdempotent(s: string)
    ensures Upper(Upper(s)) == Upper(s)
  {
    var u := Upper(s);
    assert forall i :: 0 <= i < |u| ==> UpperChar(u[i]) == u[i];
  }

  /** Equality after upper-casing both sides. */
  predicate SameIgnoringCase(a: string, b: string) {
    Upper(a) == Upper(b)
  }

  /** Two characters that are equal, or the same ASCII letter in the other case. */
  predicate SameLetterAnyCase(c: char, d: char) {
    || c == d
    || ('a' <= c <= 'z' && d as int == c as int - 32)
    || ('A' <= c <= 'Z' && d as int == c as int + 32)
  }

  lemma UpperCharEqual(c: char, d: char)
    ensures UpperChar(c) == UpperChar(d) <==> SameLetterAnyCase(c, d)
  {
  }

  /** Comparing upper-cased strings is ASCII case-insensitive equality: same
      length, and position by position the same character up to the case of
      a letter. Different letters are never confused. */
  lemma SameIgnoringCaseMeans(a: string, b: string)
    ensures SameIgnoringCase(a, b) <==>
            |a| == |b| && forall i :: 0 <= i < |a| ==> SameLetterAnyCase(a[i], b[i])
  {
    if |a| == |b| {
      forall i | 0 <= i < |a|
        ensures Upper(a)[i] == Upper(b)[i] <==> SameLetterAnyCase(a[i], b[i])
      {
        UpperCharEqual(a[i], b[i]);
      }
      if forall i :: 0 <= i < |a| ==> SameLetterAnyCase(a[i], b[i]) {
        assert Upper(a) == Upper(b);
      }
    }
  }

  /** A key that is never compared: TOKEN in any letter case. */
  predicate IsTokenKey(key: string) {
    Upper(key) == "TOKEN"
  }

  /** The test run by `some` on one recorded parameter. The TOKEN exemption is
      tested inside it, so it is only reached when the list has an element. */
  predicate Satisfies(e: Param, key: string, value: string)
    ensures IsTokenKey(key) ==> Satisfies(e, key, value)
    ensures !IsTokenKey(key) ==>
              (Satisfies(e, key, value) <==>
                 |e.name| == |key| && (forall i :: 0 <= i < |key| ==> SameLetterAnyCase(e.name[i], key[i])) &&
                 |e.value| == |value| && (forall i :: 0 <= i < |value| ==> SameLetterAnyCase(e.value[i], value[i])))
  {
    SameIgnoringCaseMeans(e.name, key);
    SameIgnoringCaseMeans(e.value, value);
    IsTokenKey(key) || (SameIgnoringCase(e.name, key) && SameIgnoringCase(e.value, value))
  }

  /** `parameters.some(...)` for one expected entry: true iff some recorded
      parameter passes the test. */
  function ParamPresent(actual: seq<Param>, key: string, value: string): (r: bool)
    ensures r <==> exists i :: 0 <= i < |actual| && Satisfies(actual[i], key, value)
  {
    if actual == [] then false
    else if Satisfies(actual[0], key, value) then true
    else
      var rest := ParamPresent(actual[1..], key, value);
      assert forall i :: 1 <= i < |actual| ==> actual[i] == actual[1..][i - 1];
      rest
  }

  /** The whole matcher: every expected entry is present. */
  predicate AllParamsPresent(actual: seq<Param>, expected: Expected) {
    forall j :: 0 <= j < |expected| ==> ParamPresent(actual, expected[j].0, expected[j].1)
  }

  /** The loop over the expected entries, returning false at the first entry
      that is not present. */
  method IsAllJobParamsPresent(actual: seq<Param>, expected: Expected) returns (present: bool)
    ensures present == AllParamsPresent(actual, expected)
  {
    for j := 0 to |expected|
      invariant forall k :: 0 <= k < j ==> ParamPresent(actual, expected[k].0, expected[k].1)
    {
      var (key, value) := expected[j];
      var isParamPresent := ParamPresent(actual, key, value);
      if !isParamPresent {
        return false;
      }
    }
    return true;
  }

  /** The reference reading of one expected entry: a TOKEN entry needs a
      non-empty list; any other entry needs a recorded parameter whose name
      and value equal it after upper-casing. */
  predicate Covered(actual: seq<Param>, key: string, value: string) {
    if IsTokenKey(key) then actual != []
    else exists i :: 0 <= i < |actual| && SameIgnoringCase(actual[i].name, key) && SameIgnoringCase(actual[i].value, value)
  }

  /** Nothing expected: the loop has no entry to fail on. */
  lemma EmptyExpectedAlwaysMatches(actual: seq<Param>)
    ensures AllParamsPresent(actual, [])
  {
  }

  /** A TOKEN entry is met by any non-empty list, whatever its names and
      values, and never by an empty one. */
  lemma TokenKeyNeedsSomeParam(actual: seq<Param>, key: string, value: string)
    requires IsTokenKey(key)
    ensures ParamPresent(actual, key, value) <==> actual != []
  {
    if actual != [] {
      assert Satisfies(actual[0], key, value);
    }
  }

  /** One expected entry is present exactly when it is covered. */
  lemma PresentIffCovered(actual: seq<Param>, key: string, value: string)
    ensures ParamPresent(actual, key, value) <==> Covered(actual, key, value)
  {
    if IsTokenKey(key) {
      TokenKeyNeedsSomeParam(actual, key, value);
    }
  }

  /** The matcher is the case-insensitive inclusion "expected is covered by
      actual", where a TOKEN key is covered by any non-empty list. */
  lemma MatchMeansSubset(actual: seq<Param>, expected: Expected)
    ensures AllParamsPresent(actual, expected) <==>
            forall j :: 0 <= j < |expected| ==> Covered(actual, expected[j].0, expected[j].1)
  {
    forall j | 0 <= j < |expected|
      ensures ParamPresent(actual, expected[j].0, expected[j].1) <==> Covered(actual, expected[j].0, expected[j].1)
    {
      PresentIffCovered(actual, expected[j].0, expected[j].1);
    }
  }

  /** The TOKEN exemption does not reach an empty recorded list: expecting
      only a TOKEN key still fails there. */
  lemma TokenAloneFailsOnEmptyList(key: string, value: string)
    requires IsTokenKey(key)
    ensures !AllParamsPresent([], [(key, value)])
    ensures forall e: Param :: AllParamsPresent([e], [(key, value)])
  {
    var expected: Expected := [(key, value)];
    assert expected[0] == (key, value) && !ParamPresent([], key, value);
    forall e: Param ensures AllParamsPresent([e], expected) {
      TokenKeyNeedsSomeParam([e], key, value);
    }
  }

  /** One expected non-TOKEN entry with no equal recorded pair fails the match. */
  lemma MissingKeyFails(actual: seq<Param>, expected: Expected, j: nat)
    requires j < |expected| && !IsTokenKey(expected[j].0)
    requires forall i :: 0 <= i < |actual| ==>
               !(SameIgnoringCase(actual[i].name, expected[j].0) && SameIgnoringCase(actual[i].value, expected[j].1))
    ensures !AllParamsPresent(actual, expected)
  {
    PresentIffCovered(actual, expected[j].0, expected[j].1);
  }

  /** Recorded parameters beyond the expected ones never cause a failure: any
      list holding every recorded parameter matches too. */
  lemma {:induction false} SupersetStillMatches(actual: seq<Param>, wider: seq<Param>, expected: Expected)
    requires forall i :: 0 <= i < |actual| ==> actual[i] in wider
    requires AllParamsPresent(actual, expected)
    ensures AllParamsPresent(wider, expected)
  {
    forall j | 0 <= j < |expected|
      ensures ParamPresent(wider, expected[j].0, expected[j].1)
    {
      var i :| 0 <= i < |actual| && Satisfies(actual[i], expected[j].0, expected[j].1);
      var k :| 0 <= k < |wider| && wider[k] == actual[i];
      assert Satisfies(wider[k], expected[j].0, expected[j].1);
    }
  }

  /** Extra recorded parameters on either side are ignored. */
  lemma ExtraParamsIgnored(actual: seq<Param>, extra: seq<Param>, expected: Expected)
    requires AllParamsPresent(actual, expected)
    ensures AllParamsPresent(actual + extra, expected)
    ensures AllParamsPresent(extra + actual, expected)
  {
    assert forall i :: 0 <= i < |actual| ==> (actual + extra)[i] == actual[i];
    SupersetStillMatches(actual, actual + extra, expected);
    assert forall i :: 0 <= i < |actual| ==> (extra + actual)[|extra| + i] == actual[i];
    SupersetStillMatches(actual, extra + actual, expected);
  }

  function UpperParam(e: Param): Param {
    Param(Upper(e.name), Upper(e.value))
  }

  function UpperParams(actual: seq<Param>): (r: seq<Param>)
    ensures |r| == |actual|
    ensures forall i :: 0 <= i < |actual| ==> r[i] == UpperParam(actual[i])
  {
    seq(|actual|, i requires 0 <= i < |actual| => UpperParam(actual[i]))
  }

  function UpperEntries(expected: Expected): (r: Expected)
    ensures |r| == |expected|
    ensures forall j :: 0 <= j < |expected| ==> r[j] == (Upper(expected[j].0), Upper(expected[j].1))
  {
    seq(|expected|, j requires 0 <= j < |expected| => (Upper(expected[j].0), Upper(expected[j].1)))
  }

  lemma SatisfiesIgnoresCase(e: Param, key: string, value: string)
    ensures Satisfies(UpperParam(e), Upper(key), Upper(value)) == Satisfies(e, key, value)
  {
    UpperIdempotent(e.name);
    UpperIdempotent(e.value);
    UpperIdempotent(key);
    UpperIdempotent(value);
  }

  /** Letter case of names, values and keys never changes the verdict:
      upper-casing both sides first gives the same answer. */
  lemma MatchIgnoresCase(actual: seq<Param>, expected: Expected)
    ensures AllParamsPresent(UpperParams(actual), UpperEntries(expected)) == AllParamsPresent(actual, expected)
  {
    var ua, ue := UpperParams(actual), UpperEntries(expected);
    forall j | 0 <= j < |expected|
      ensures ParamPresent(ua, ue[j].0, ue[j].1) == ParamPresent(actual, expected[j].0, expected[j].1)
    {
      var (key, value) := expected[j];
      forall i | 0 <= i < |actual|
        ensures Satisfies(ua[i], Upper(key), Upper(value)) == Satisfies(actual[i], key, value)
      {
        SatisfiesIgnoresCase(actual[i], key, value);
      }
    }
  }

  /** Worked examples: a subset matches, a superset does not, case is ignored. */
  lemma SubsetExamples()
    ensures AllParamsPresent([Param("A", "1"), Param("B", "2")], [("A", "1")])
    ensures !AllParamsPresent([Param("A", "1")], [("A", "1"), ("B", "2")])
    ensures AllParamsPresent([Param("env", "Prod")], [("ENV", "prod")])
  {
    assert Satisfies(Param("A", "1"), "A", "1");
    assert Upper("A") == "A" && Upper("B") == "B" && Upper("1") == "1" && Upper("2") == "2";
    MissingKeyFails([Param("A", "1")], [("A", "1"), ("B", "2")], 1);
    assert Upper("env") == "ENV" == Upper("ENV");
    assert Upper("Prod") == "PROD" == Upper("prod");
    assert Satisfies(Param("env", "Prod"), "ENV", "prod");
  }
}
