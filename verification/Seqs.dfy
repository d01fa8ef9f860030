/** Sequence facts shared by the run theorems. */
module Seqs {

  /** Extending a FIFO history: `took` came in, `gave` went out, `held` became `held'`. */
  lemma FifoExtend<T>(recvd: seq<T>, sent: seq<T>, held: seq<T>, took: seq<T>, gave: seq<T>, held': seq<T>)
    requires recvd == sent + held && held + took == gave + held'
    ensures recvd + took == (sent + gave) + held'
  {
    calc {
      recvd + took;
      sent + (held + took);
      sent + (gave + held');
      (sent + gave) + held';
    }
  }

  ghost predicate Distinct(s: seq<nat>) {
    forall i, j :: 0 <= i < j < |s| ==> s[i] != s[j]
  }

  ghost function Elems(s: seq<nat>): set<nat> {
    if s == [] then {} else Elems(s[..|s| - 1]) + {s[|s| - 1]}
  }

  lemma {:induction false} ElemsAre(s: seq<nat>, x: nat)
    ensures x in Elems(s) <==> exists i :: 0 <= i < |s| && s[i] == x
  {
    if s != [] {
      ElemsAre(s[..|s| - 1], x);
      assert forall i :: 0 <= i < |s| - 1 ==> s[..|s| - 1][i] == s[i];
      if x in Elems(s[..|s| - 1]) {
        var i :| 0 <= i < |s| - 1 && s[..|s| - 1][i] == x;
        assert s[i] == x;
      }
    }
  }

  /** A sequence has at most as many elements as positions; as many if they are distinct. */
  lemma {:induction false} ElemsCount(s: seq<nat>)
    ensures |Elems(s)| <= |s| && (Distinct(s) ==> |Elems(s)| == |s|)
  {
    if s != [] {
      var n := |s| - 1;
      ElemsCount(s[..n]);
      ElemsAre(s[..n], s[n]);
      assert forall i :: 0 <= i < n ==> s[..n][i] == s[i];
    }
  }

  lemma {:induction false} SubsetSize(a: set<nat>, b: set<nat>)
    requires a <= b
    ensures |a| <= |b| && (|a| == |b| ==> a == b)
    decreases b
  {
    if b != {} {
      var x :| x in b;
      var b' := b - {x};
      if x in a {
        SubsetSize(a - {x}, b');
        assert a == a - {x} + {x} && b == b' + {x};
      } else {
        SubsetSize(a, b');
      }
    } else {
      assert a == b;
    }
  }

  ghost function Below(n: nat): (r: set<nat>)
    ensures |r| == n && forall x: nat :: x in r <==> x < n
  {
    if n == 0 then {} else Below(n - 1) + {n - 1}
  }

  /** n distinct numbers below n leave none out. */
  lemma Pigeonhole(s: seq<nat>, b: nat) returns (i: nat)
    requires Distinct(s) && (forall j :: 0 <= j < |s| ==> s[j] < |s|) && b < |s|
    ensures i < |s| && s[i] == b
  {
    ElemsCount(s);
    forall x | x in Elems(s) ensures x in Below(|s|) {
      ElemsAre(s, x);
    }
    SubsetSize(Elems(s), Below(|s|));
    ElemsAre(s, b);
    i :| 0 <= i < |s| && s[i] == b;
  }
}
