/** The signature-collecting loop of `sign_operation` (programs/entangle-photon-sol/src/lib.rs:396-439). */
module Quorum {
  import opened Wrappers
  import opened Bytes
  import opened FixedList

  const RATE_DECIMALS := 10000
  const SIGNER_SLOTS := 16

  /** The consensus test, in the contract's floor division. */
  predicate Reached(k: nat, n: nat, rate: u64)
    requires n > 0
  {
    k * RATE_DECIMALS / n >= rate
  }

  /** The least number of signers that reaches the rate. */
  function QuorumSize(n: nat, rate: u64): nat {
    (rate * n + RATE_DECIMALS - 1) / RATE_DECIMALS
  }

  lemma QuorumArithmetic(k: nat, n: nat, rate: u64)
    requires n > 0
    ensures Reached(k, n, rate) <==> k * 10000 >= rate * n
    ensures Reached(k, n, rate) <==> k >= QuorumSize(n, rate)
    ensures rate <= 10000 ==> QuorumSize(n, rate) <= n
    ensures rate >= 1 ==> QuorumSize(n, rate) >= 1
  {
    var q := k * RATE_DECIMALS / n;
    assert q * n <= k * RATE_DECIMALS < q * n + n;
    if q >= rate {
      MulMonotone(rate, q, n);
    } else {
      MulMonotone(q + 1, rate, n);
    }
    if rate <= RATE_DECIMALS {
      MulMonotone(rate, RATE_DECIMALS, n);
    }
    if rate >= 1 {
      MulMonotone(1, rate, n);
    }
  }

  lemma MulMonotone(x: int, y: int, n: nat)
    requires x <= y
    ensures x * n <= y * n
  {
  }

  datatype Collected = Collected(signers: seq<EthAddress>, reached: bool)

  /** The loop over recovered signers; None is an unrecoverable signature met before the quorum. */
  function Collect(allowed: seq<EthAddress>, rate: u64, signers: seq<EthAddress>, recovered: seq<Option<EthAddress>>): Option<Collected>
    requires |allowed| > 0
    decreases |recovered|
  {
    if recovered == [] then Some(Collected(signers, false))
    else match recovered[0]
      case None => None
      case Some(a) =>
        if a in allowed && a !in signers then
          if Reached(|signers| + 1, |allowed|, rate) then Some(Collected(signers + [a], true))
          else Collect(allowed, rate, signers + [a], recovered[1..])
        else Collect(allowed, rate, signers, recovered[1..])
  }

  /** What the loop may add to the stored signers. */
  function Supplied(allowed: seq<EthAddress>, recovered: seq<Option<EthAddress>>): set<EthAddress> {
    set r | r in recovered && r.Some? && r.value in allowed :: r.value
  }

  ghost predicate AllRecoverable(recovered: seq<Option<EthAddress>>) {
    forall r :: r in recovered ==> r.Some?
  }

  /** What the loop keeps, whatever it is given. */
  lemma {:induction false} CollectInvariant(allowed: seq<EthAddress>, rate: u64, signers: seq<EthAddress>, recovered: seq<Option<EthAddress>>)
    requires |allowed| > 0 && Distinct(signers)
    requires Collect(allowed, rate, signers, recovered).Some?
    ensures var c := Collect(allowed, rate, signers, recovered).value;
            && signers <= c.signers && Distinct(c.signers)
            && ToSet(c.signers) <= ToSet(signers) + Supplied(allowed, recovered)
            && (c.reached ==> c.signers != [] && Reached(|c.signers|, |allowed|, rate))
    decreases |recovered|
  {
    if recovered != [] {
      assert recovered == [recovered[0]] + recovered[1..];
      var a := recovered[0].value;
      if a in allowed && a !in signers {
        assert ToSet(signers + [a]) == ToSet(signers) + {a};
        assert a in Supplied(allowed, recovered);
        if !Reached(|signers| + 1, |allowed|, rate) {
          CollectInvariant(allowed, rate, signers + [a], recovered[1..]);
        }
      } else {
        CollectInvariant(allowed, rate, signers, recovered[1..]);
      }
      assert Supplied(allowed, recovered[1..]) <= Supplied(allowed, recovered);
    }
  }

  lemma SuppliedStep(allowed: seq<EthAddress>, signers: seq<EthAddress>, recovered: seq<Option<EthAddress>>)
    requires recovered != [] && recovered[0].Some?
    ensures var a, union := recovered[0].value, ToSet(signers) + Supplied(allowed, recovered);
            && (a in allowed ==> ToSet(signers + [a]) + Supplied(allowed, recovered[1..]) == union
                                 && ToSet(signers + [a]) <= union)
            && (a !in allowed || a in signers ==> ToSet(signers) + Supplied(allowed, recovered[1..]) == union)
  {
    var a, rest := recovered[0].value, Supplied(allowed, recovered[1..]);
    assert recovered == [recovered[0]] + recovered[1..];
    assert Supplied(allowed, recovered) == rest + (if a in allowed then {a} else {});
    assert ToSet(signers + [a]) == ToSet(signers) + {a};
  }

  lemma {:induction false} CollectsAllUnlessReached(allowed: seq<EthAddress>, rate: u64, signers: seq<EthAddress>, recovered: seq<Option<EthAddress>>)
    requires |allowed| > 0 && AllRecoverable(recovered)
    ensures Collect(allowed, rate, signers, recovered).Some?
    ensures var c := Collect(allowed, rate, signers, recovered).value;
            !c.reached ==> ToSet(c.signers) == ToSet(signers) + Supplied(allowed, recovered)
    decreases |recovered|
  {
    if recovered == [] {
      assert Supplied(allowed, recovered) == {};
    } else {
      var a := recovered[0].value;
      SuppliedStep(allowed, signers, recovered);
      if a in allowed && a !in signers {
        CollectsAllUnlessReached(allowed, rate, signers + [a], recovered[1..]);
      } else {
        CollectsAllUnlessReached(allowed, rate, signers, recovered[1..]);
      }
    }
  }

  lemma SubsetCardinality<T>(a: set<T>, b: set<T>)
    requires a <= b
    ensures |a| <= |b|
  {
    if a != {} {
      var x :| x in a;
      SubsetCardinality(a - {x}, b - {x});
    }
  }

  /** Unless the loop reports success, the quorum is still ahead. */
  lemma {:induction false} NotReachedStaysBelow(allowed: seq<EthAddress>, rate: u64, signers: seq<EthAddress>, recovered: seq<Option<EthAddress>>)
    requires |allowed| > 0 && !Reached(|signers|, |allowed|, rate)
    requires Collect(allowed, rate, signers, recovered).Some?
    ensures var c := Collect(allowed, rate, signers, recovered).value;
            && |c.signers| >= |signers|
            && |c.signers| <= QuorumSize(|allowed|, rate)
            && (c.reached <==> Reached(|c.signers|, |allowed|, rate))
    decreases |recovered|
  {
    QuorumArithmetic(|signers|, |allowed|, rate);
    if recovered != [] {
      var a := recovered[0].value;
      QuorumArithmetic(|signers| + 1, |allowed|, rate);
      if a in allowed && a !in signers {
        if !Reached(|signers| + 1, |allowed|, rate) {
          NotReachedStaysBelow(allowed, rate, signers + [a], recovered[1..]);
        }
      } else {
        NotReachedStaysBelow(allowed, rate, signers, recovered[1..]);
      }
    }
  }

  /**
    The early-exit loop refines a set specification: starting below the quorum with recoverable
    signatures, it reaches the quorum exactly when the stored and supplied signers together meet it.
    If it does not, it has collected all of them; if it does, it stops at exactly the quorum size.
  */
  lemma CollectRefinesSet(allowed: seq<EthAddress>, rate: u64, signers: seq<EthAddress>, recovered: seq<Option<EthAddress>>)
    requires |allowed| > 0 && Distinct(signers) && AllRecoverable(recovered)
    requires !Reached(|signers|, |allowed|, rate)
    ensures Collect(allowed, rate, signers, recovered).Some?
    ensures var c := Collect(allowed, rate, signers, recovered).value;
            var union := ToSet(signers) + Supplied(allowed, recovered);
            && (c.reached <==> Reached(|union|, |allowed|, rate))
            && (if c.reached then |c.signers| == QuorumSize(|allowed|, rate) else ToSet(c.signers) == union)
  {
    CollectsAllUnlessReached(allowed, rate, signers, recovered);
    CollectInvariant(allowed, rate, signers, recovered);
    NotReachedStaysBelow(allowed, rate, signers, recovered);
    var c := Collect(allowed, rate, signers, recovered).value;
    var union := ToSet(signers) + Supplied(allowed, recovered);
    DistinctCardinality(c.signers);
    SubsetCardinality(ToSet(c.signers), union);
    QuorumArithmetic(|c.signers|, |allowed|, rate);
    QuorumArithmetic(|union|, |allowed|, rate);
  }

  /** Neither the order of the signatures nor repeats among them matter to the outcome. */
  lemma OrderAndDuplicatesIrrelevant(allowed: seq<EthAddress>, rate: u64, signers: seq<EthAddress>,
                                     r1: seq<Option<EthAddress>>, r2: seq<Option<EthAddress>>)
    requires |allowed| > 0 && Distinct(signers) && !Reached(|signers|, |allowed|, rate)
    requires AllRecoverable(r1) && AllRecoverable(r2) && ToSet(r1) == ToSet(r2)
    ensures var c1, c2 := Collect(allowed, rate, signers, r1), Collect(allowed, rate, signers, r2);
            && c1.Some? && c2.Some?
            && c1.value.reached == c2.value.reached
            && |c1.value.signers| == |c2.value.signers|
            && (!c1.value.reached ==> ToSet(c1.value.signers) == ToSet(c2.value.signers))
  {
    assert forall r :: (r in r1 <==> r in ToSet(r1)) && (r in r2 <==> r in ToSet(r2));
    assert Supplied(allowed, r1) == Supplied(allowed, r2);
    CollectRefinesSet(allowed, rate, signers, r1);
    CollectRefinesSet(allowed, rate, signers, r2);
    CollectInvariant(allowed, rate, signers, r1);
    CollectInvariant(allowed, rate, signers, r2);
    DistinctCardinality(Collect(allowed, rate, signers, r1).value.signers);
    DistinctCardinality(Collect(allowed, rate, signers, r2).value.signers);
  }

  /** Collecting from two chunks one after the other is collecting from their concatenation. */
  lemma {:induction false} CollectAppend(allowed: seq<EthAddress>, rate: u64, signers: seq<EthAddress>,
                                         r1: seq<Option<EthAddress>>, r2: seq<Option<EthAddress>>)
    requires |allowed| > 0
    ensures Collect(allowed, rate, signers, r1 + r2) ==
            match Collect(allowed, rate, signers, r1)
            case None => None
            case Some(c) => if c.reached then Some(c) else Collect(allowed, rate, c.signers, r2)
    decreases |r1|
  {
    if r1 == [] {
      assert r1 + r2 == r2;
    } else {
      assert (r1 + r2)[0] == r1[0] && (r1 + r2)[1..] == r1[1..] + r2;
      if r1[0].Some? {
        var a := r1[0].value;
        CollectAppend(allowed, rate, signers, r1[1..], r2);
        CollectAppend(allowed, rate, signers + [a], r1[1..], r2);
      }
    }
  }

  /** The first unrecoverable signature. */
  lemma FirstUnrecoverable(recovered: seq<Option<EthAddress>>) returns (i: nat)
    requires !AllRecoverable(recovered)
    ensures i < |recovered| && recovered[i].None? && AllRecoverable(recovered[..i])
  {
    i := 0;
    while recovered[i].Some?
      invariant i < |recovered| && forall j :: 0 <= j < i ==> recovered[j].Some?
      invariant exists j :: i <= j < |recovered| && recovered[j].None?
      decreases |recovered| - i
    {
      i := i + 1;
    }
  }

  /**
    Exactly when the loop fails, from below the quorum: some signature is unrecoverable, and the
    recoverable ones before the first such do not reach the quorum.
  */
  lemma CollectFailsExactly(allowed: seq<EthAddress>, rate: u64, signers: seq<EthAddress>, recovered: seq<Option<EthAddress>>)
    requires |allowed| > 0 && Distinct(signers) && !Reached(|signers|, |allowed|, rate)
    ensures Collect(allowed, rate, signers, recovered).None?
            <==> exists i :: 0 <= i < |recovered| && recovered[i].None? && AllRecoverable(recovered[..i])
                             && !Reached(|ToSet(signers) + Supplied(allowed, recovered[..i])|, |allowed|, rate)
  {
    forall i | 0 <= i < |recovered| && recovered[i].None? && AllRecoverable(recovered[..i])
      ensures Collect(allowed, rate, signers, recovered).None?
              <==> !Reached(|ToSet(signers) + Supplied(allowed, recovered[..i])|, |allowed|, rate)
    {
      CollectRefinesSet(allowed, rate, signers, recovered[..i]);
      CollectAppend(allowed, rate, signers, recovered[..i], recovered[i..]);
      assert recovered[..i] + recovered[i..] == recovered;
    }
    if AllRecoverable(recovered) {
      CollectRefinesSet(allowed, rate, signers, recovered);
    } else {
      var i := FirstUnrecoverable(recovered);
    }
  }

  /** Signatures of all allowed signers. */
  function Everyone(allowed: seq<EthAddress>): (r: seq<Option<EthAddress>>)
    ensures |r| == |allowed| && forall i :: 0 <= i < |r| ==> r[i] == Some(allowed[i])
  {
    seq(|allowed|, i requires 0 <= i < |allowed| => Some(allowed[i]))
  }

  lemma EveryoneSupplies(allowed: seq<EthAddress>)
    ensures AllRecoverable(Everyone(allowed)) && Supplied(allowed, Everyone(allowed)) == ToSet(allowed)
  {
    forall a | a in allowed
      ensures a in Supplied(allowed, Everyone(allowed))
    {
      var i :| 0 <= i < |allowed| && allowed[i] == a;
      assert Everyone(allowed)[i] == Some(a);
    }
    assert Supplied(allowed, Everyone(allowed)) == ToSet(allowed);
  }

  /**
    Exactly when some list of recoverable signatures reaches the quorum: the distinct candidates are
    enough. The rate counts list entries, so repeats in the list can put it out of reach; without
    repeats every rate up to 10000 can be reached.
  */
  lemma ApprovableExactly(allowed: seq<EthAddress>, rate: u64, signers: seq<EthAddress>)
    requires |allowed| > 0 && Distinct(signers) && !Reached(|signers|, |allowed|, rate)
    ensures (exists recovered: seq<Option<EthAddress>> ::
               && AllRecoverable(recovered) && Collect(allowed, rate, signers, recovered).Some?
               && Collect(allowed, rate, signers, recovered).value.reached)
            <==> |ToSet(signers) + ToSet(allowed)| >= QuorumSize(|allowed|, rate)
    ensures Distinct(allowed) && rate <= RATE_DECIMALS ==> |ToSet(signers) + ToSet(allowed)| >= QuorumSize(|allowed|, rate)
  {
    var all := ToSet(signers) + ToSet(allowed);
    QuorumArithmetic(|all|, |allowed|, rate);
    forall recovered: seq<Option<EthAddress>> |
      && AllRecoverable(recovered) && Collect(allowed, rate, signers, recovered).Some?
      && Collect(allowed, rate, signers, recovered).value.reached
      ensures |all| >= QuorumSize(|allowed|, rate)
    {
      var union := ToSet(signers) + Supplied(allowed, recovered);
      CollectRefinesSet(allowed, rate, signers, recovered);
      QuorumArithmetic(|union|, |allowed|, rate);
      SubsetCardinality(union, all);
    }
    EveryoneSupplies(allowed);
    CollectRefinesSet(allowed, rate, signers, Everyone(allowed));
    if Distinct(allowed) {
      DistinctCardinality(allowed);
      SubsetCardinality(ToSet(allowed), all);
    }
  }

  /**
    Exactly when some list of recoverable signatures makes the loop collect more signers than the
    16 slots of `unique_signers` hold: the quorum exceeds 16 and there are that many candidates.
    Nothing else about the stored signers or the earlier configuration matters.
  */
  lemma OverflowCondition(allowed: seq<EthAddress>, rate: u64, signers: seq<EthAddress>)
    requires |allowed| > 0 && Distinct(signers) && |signers| <= SIGNER_SLOTS
    requires !Reached(|signers|, |allowed|, rate)
    ensures (exists recovered: seq<Option<EthAddress>> ::
               && Collect(allowed, rate, signers, recovered).Some?
               && |Collect(allowed, rate, signers, recovered).value.signers| > SIGNER_SLOTS)
            <==> QuorumSize(|allowed|, rate) > SIGNER_SLOTS && |ToSet(signers) + ToSet(allowed)| > SIGNER_SLOTS
  {
    forall recovered: seq<Option<EthAddress>> |
      && Collect(allowed, rate, signers, recovered).Some?
      && |Collect(allowed, rate, signers, recovered).value.signers| > SIGNER_SLOTS
      ensures QuorumSize(|allowed|, rate) > SIGNER_SLOTS && |ToSet(signers) + ToSet(allowed)| > SIGNER_SLOTS
    {
      var c := Collect(allowed, rate, signers, recovered).value;
      NotReachedStaysBelow(allowed, rate, signers, recovered);
      CollectInvariant(allowed, rate, signers, recovered);
      DistinctCardinality(c.signers);
      SubsetCardinality(ToSet(c.signers), ToSet(signers) + ToSet(allowed));
    }
    if QuorumSize(|allowed|, rate) > SIGNER_SLOTS && |ToSet(signers) + ToSet(allowed)| > SIGNER_SLOTS {
      var recovered := Everyone(allowed);
      EveryoneSupplies(allowed);
      CollectRefinesSet(allowed, rate, signers, recovered);
      CollectInvariant(allowed, rate, signers, recovered);
      DistinctCardinality(Collect(allowed, rate, signers, recovered).value.signers);
    }
  }
}
