/**
 * Service names are compared case-insensitively: both sides are lower-cased
 * before they are compared. Lower-casing is modelled on ASCII letters only.
 */
module Names {

  predicate IsUpper(c: char) {
    'A' <= c <= 'Z'
  }

  /** The lower-case form of one character; anything but 'A'..'Z' is kept. */
  function LowerChar(c: char): (r: char)
    ensures !IsUpper(r)
    ensures !IsUpper(c) ==> r == c
  {
    if IsUpper(c) then (c as int + 32) as char else c
  }

  /** The lower-case form of a name, character by character. */
  function Lower(s: string): (r: string)
    ensures |r| == |s|
    ensures forall i :: 0 <= i < |s| ==> r[i] == LowerChar(s[i])
  {
    if s == [] then [] else [LowerChar(s[0])] + Lower(s[1..])
  }

  /** Two names denote the same service once both are lower-cased. */
  predicate SameName(a: string, b: string) {
    Lower(a) == Lower(b)
  }

  /** Lower-casing a name that is already lower-cased changes nothing. */
  lemma {:induction false} LowerIdempotent(s: string)
    ensures Lower(Lower(s)) == Lower(s)
  {
    if s != [] {
      LowerIdempotent(s[1..]);
      assert Lower(s) == [LowerChar(s[0])] + Lower(s[1..]);
    }
  }

  /** Names differing only in the case of their letters denote the same service. */
  lemma {:induction false} SameNameCharwise(a: string, b: string)
    ensures SameName(a, b) <==> |a| == |b| && forall i :: 0 <= i < |a| ==> LowerChar(a[i]) == LowerChar(b[i])
  {
    if |a| == |b| && forall i :: 0 <= i < |a| ==> LowerChar(a[i]) == LowerChar(b[i]) {
      assert forall i :: 0 <= i < |a| ==> Lower(a)[i] == Lower(b)[i];
    }
  }

  /** "MyService" and "myservice" are the same service. */
  lemma MixedCaseExample()
    ensures SameName("MyService", "myservice")
    ensures !SameName("MyService", "MyService2")
  {
    SameNameCharwise("MyService", "myservice");
  }
}
