/** Substring search over `string` (Go's strings.Index and
    strings.Contains). */
module Strings {

  /** `sub` occurs in `s` starting at position `p`. */
  predicate OccursAt(s: string, sub: string, p: int)
  {
    0 <= p && p + |sub| <= |s| && s[p..p + |sub|] == sub
  }

  /** True iff `sub` occurs somewhere in `s` (strings.Contains). */
  predicate Contains(s: string, sub: string)
  {
    exists p :: 0 <= p <= |s| && OccursAt(s, sub, p)
  }

  /** strings.Index: the first position where `sub` occurs, -1 when there
      is none. `IndexSpec` states what the position means. */
  function Index(s: string, sub: string): (r: int)
    ensures -1 <= r && (r >= 0 ==> r + |sub| <= |s|)
    ensures r >= 0 ==> OccursAt(s, sub, r)
    decreases |s|
  {
    if |s| < |sub| then -1
    else if s[..|sub|] == sub then 0
    else
      var k := Index(s[1..], sub);
      if k == -1 then -1
      else
        OccursAtTail(s, sub, k);
        k + 1
  }

  lemma OccursAtTail(s: string, sub: string, p: int)
    requires |s| > 0 && 0 <= p
    ensures OccursAt(s[1..], sub, p) <==> OccursAt(s, sub, p + 1)
  {
    if p + |sub| <= |s[1..]| {
      assert s[1..][p..p + |sub|] == s[p + 1..p + 1 + |sub|];
    }
  }

  /** The result is an occurrence with none before it, and -1 exactly when
      there is no occurrence at all. */
  lemma {:induction false} IndexSpec(s: string, sub: string)
    ensures Index(s, sub) >= 0 ==> OccursAt(s, sub, Index(s, sub))
    ensures forall p :: 0 <= p < Index(s, sub) ==> !OccursAt(s, sub, p)
    ensures Index(s, sub) == -1 <==> !Contains(s, sub)
    decreases |s|
  {
    var r := Index(s, sub);
    if |s| < |sub| {
      assert forall p :: !OccursAt(s, sub, p);
    } else if s[..|sub|] == sub {
      assert OccursAt(s, sub, 0);
    } else {
      IndexSpec(s[1..], sub);
      var k := Index(s[1..], sub);
      assert !OccursAt(s, sub, 0);
      forall p | 0 < p ensures OccursAt(s[1..], sub, p - 1) <==> OccursAt(s, sub, p) {
        OccursAtTail(s, sub, p - 1);
      }
      if k == -1 {
        assert forall p :: 0 <= p ==> !OccursAt(s[1..], sub, p);
        assert forall p :: !OccursAt(s, sub, p) by {
          forall p ensures !OccursAt(s, sub, p) {
            if p > 0 {
              assert !OccursAt(s[1..], sub, p - 1);
            }
          }
        }
      } else {
        assert OccursAt(s, sub, k + 1);
        forall p | 0 <= p < k + 1 ensures !OccursAt(s, sub, p) {
          if p > 0 {
            assert !OccursAt(s[1..], sub, p - 1);
          }
        }
      }
    }
  }

  /** Text before the first occurrence of `sub` does not contain `sub`. */
  lemma BeforeFirstOccurrence(s: string, sub: string)
    requires |sub| > 0 && Index(s, sub) >= 0
    ensures !Contains(s[..Index(s, sub)], sub)
  {
    var k := Index(s, sub);
    IndexSpec(s, sub);
    if Contains(s[..k], sub) {
      var p :| 0 <= p <= k && OccursAt(s[..k], sub, p);
      assert s[..k][p..p + |sub|] == s[p..p + |sub|];
      assert OccursAt(s, sub, p);
    }
  }

  /** An occurrence with none before it is what Index finds. */
  lemma IndexIsFirst(s: string, sub: string, q: int)
    requires OccursAt(s, sub, q) && forall p :: 0 <= p < q ==> !OccursAt(s, sub, p)
    ensures Index(s, sub) == q
  {
    IndexSpec(s, sub);
    assert Contains(s, sub);
  }
}
