/** Small building blocks shared by the character-creation and solitaire models. */
module Common {

  /** A value that may be absent: JavaScript's `undefined`/`null` beside a present value. */
  datatype Option<+T> = None | Some(value: T) {
    function GetOr(default: T): T {
      match this
      case Some(v) => v
      case None => default
    }
  }

  /**
   * The injected source of randomness. The original code computes
   * `Math.floor(random() * n)` from a generator whose outputs lie in [0, 1);
   * here the k-th such draw is taken from a stream of naturals and reduced
   * into [0, n). Every property of the model holds for every stream.
   */
  function Pick(rolls: seq<nat>, k: nat, n: nat): (r: nat)
    requires n > 0
    ensures r < n
    ensures k < |rolls| && rolls[k] < n ==> r == rolls[k]
  {
    if k < |rolls| then rolls[k] % n else 0
  }

  /** No element occurs twice. */
  predicate Distinct<T(==)>(s: seq<T>) {
    forall i, j :: 0 <= i < j < |s| ==> s[i] != s[j]
  }

  /** A non-empty sequence is duplicate-free iff its head is not in its tail and its tail is duplicate-free. */
  lemma DistinctCons<T>(s: seq<T>)
    requires |s| > 0
    ensures Distinct(s) <==> s[0] !in s[1..] && Distinct(s[1..])
  {
    var t := s[1..];
    if s[0] !in t && Distinct(t) {
      forall i, j | 0 <= i < j < |s| ensures s[i] != s[j] {
        assert s[j] == t[j - 1];
        if i > 0 { assert s[i] == t[i - 1]; }
      }
    }
    if Distinct(s) {
      forall i, j | 0 <= i < j < |t| ensures t[i] != t[j] {
        assert t[i] == s[i + 1] && t[j] == s[j + 1];
      }
      forall k | 0 <= k < |t| ensures t[k] != s[0] {
        assert t[k] == s[k + 1];
      }
    }
  }

  /** A sequence is duplicate-free exactly when no element has multiplicity above one. */
  lemma {:induction false} DistinctIffSingleMultiplicity<T>(s: seq<T>)
    ensures Distinct(s) <==> forall x :: multiset(s)[x] <= 1
  {
    if s == [] {
    } else {
      var t := s[1..];
      assert s == [s[0]] + t;
      DistinctIffSingleMultiplicity(t);
      if Distinct(s) {
        assert Distinct(t) by {
          forall i, j | 0 <= i < j < |t| ensures t[i] != t[j] {
            assert t[i] == s[i + 1] && t[j] == s[j + 1];
          }
        }
        assert s[0] !in t;
        forall x ensures multiset(s)[x] <= 1 {
          assert multiset(s) == multiset{s[0]} + multiset(t);
        }
      } else {
        var i, j :| 0 <= i < j < |s| && s[i] == s[j];
        if i == 0 {
          assert s[j] in multiset(t) by { assert t[j - 1] == s[j]; }
          assert multiset(s)[s[0]] == 1 + multiset(t)[s[0]];
        } else {
          assert !Distinct(t) by { assert t[i - 1] == s[i] && t[j - 1] == s[j]; }
          var x :| multiset(t)[x] > 1;
          assert multiset(s)[x] >= multiset(t)[x];
        }
      }
    }
  }

  /** Rearranging a duplicate-free sequence (same multiset) keeps it duplicate-free. */
  lemma DistinctPermutation<T>(s: seq<T>, t: seq<T>)
    requires multiset(s) == multiset(t)
    requires Distinct(t)
    ensures Distinct(s)
  {
    DistinctIffSingleMultiplicity(t);
    DistinctIffSingleMultiplicity(s);
  }
}
