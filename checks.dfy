/** A list of named checks, as the validators build them: each check passes
    or fails and carries the message reported for it. */
module Checks {
  import opened Options

  datatype Check<M> = Check(ok: bool, msg: M)

  /** The position of the first failing check, or `|cs|` when all pass. */
  function FirstFailing<M>(cs: seq<Check<M>>): (k: nat)
    ensures k <= |cs|
    ensures forall j :: 0 <= j < k ==> cs[j].ok
    ensures k < |cs| ==> !cs[k].ok
  {
    if cs == [] || !cs[0].ok then 0 else 1 + FirstFailing(cs[1..])
  }

  /** The message of the first failing check, or none. */
  function FirstFailure<M>(cs: seq<Check<M>>): Option<M> {
    var k := FirstFailing(cs);
    if k < |cs| then Some(cs[k].msg) else None
  }

  /** The messages of every failing check, in check order. */
  function Failing<M>(cs: seq<Check<M>>): seq<M> {
    if cs == [] then []
    else Failing(cs[..|cs| - 1]) + if cs[|cs| - 1].ok then [] else [cs[|cs| - 1].msg]
  }

  /** Checks are reported independently and in order. */
  lemma {:induction false} FailingAppend<M>(a: seq<Check<M>>, b: seq<Check<M>>)
    ensures Failing(a + b) == Failing(a) + Failing(b)
    decreases |b|
  {
    if b == [] {
      assert a + b == a;
    } else {
      FailingAppend(a, b[..|b| - 1]);
      assert (a + b)[..|a + b| - 1] == a + b[..|b| - 1];
    }
  }

  predicate AllOk<M>(cs: seq<Check<M>>) { forall i :: 0 <= i < |cs| ==> cs[i].ok }

  lemma AllOkAppend<M>(a: seq<Check<M>>, b: seq<Check<M>>)
    ensures AllOk(a + b) <==> AllOk(a) && AllOk(b)
  {
    if AllOk(a) && AllOk(b) {
      forall i | 0 <= i < |a + b| ensures (a + b)[i].ok {
        if i >= |a| {
          assert (a + b)[i] == b[i - |a|];
        }
      }
    }
    if AllOk(a + b) {
      forall i | 0 <= i < |a| ensures a[i].ok {
        assert (a + b)[i] == a[i];
      }
      forall i | 0 <= i < |b| ensures b[i].ok {
        assert (a + b)[|a| + i] == b[i];
      }
    }
  }

  /** Nothing is reported exactly when every check passes. */
  lemma {:induction false} FailingEmptyIff<M>(cs: seq<Check<M>>)
    ensures Failing(cs) == [] <==> AllOk(cs)
    decreases |cs|
  {
    if cs != [] {
      var init := cs[..|cs| - 1];
      FailingEmptyIff(init);
      AllOkAppend(init, [cs[|cs| - 1]]);
      assert init + [cs[|cs| - 1]] == cs;
    }
  }

  /** A check whose message no other check carries is reported exactly when
      it fails. */
  lemma {:induction false} FailingUniqueMember<M>(cs: seq<Check<M>>, k: nat)
    requires k < |cs|
    requires forall j :: 0 <= j < |cs| && j != k ==> cs[j].msg != cs[k].msg
    ensures cs[k].msg in Failing(cs) <==> !cs[k].ok
    decreases |cs|
  {
    var n := |cs| - 1;
    var init := cs[..n];
    if k < n {
      assert forall j :: 0 <= j < |init| ==> init[j] == cs[j];
      FailingUniqueMember(init, k);
      assert cs[n].msg != cs[k].msg;
    } else {
      FailingAbsent(init, cs[k].msg);
    }
  }

  /** A message no check carries is never reported. */
  lemma {:induction false} FailingAbsent<M>(cs: seq<Check<M>>, m: M)
    requires forall j :: 0 <= j < |cs| ==> cs[j].msg != m
    ensures m !in Failing(cs)
    decreases |cs|
  {
    if cs != [] {
      var init := cs[..|cs| - 1];
      assert forall j :: 0 <= j < |init| ==> init[j] == cs[j];
      FailingAbsent(init, m);
    }
  }

}
