/** The result of a fan-out: counting the outcomes as the delivery tasks finish,
    and reducing the counts to one response. */
module Aggregation {
  import opened Leases

  /** What the join loop gets from one delivery task. */
  datatype Outcome =
    | Status(code: nat)
    | RequestError
    | TimedOut
    | Panicked

  datatype Summary = Summary(total: nat, succeeded: nat, timedOut: bool)

  datatype ResponsePolicy = All | Any | Always

  predicate IsSuccess(o: Outcome) {
    o.Status? && 200 <= o.code < 300
  }

  predicate Accepts(p: ResponsePolicy, succeeded: nat, total: nat) {
    match p
    case All => total > 0 && succeeded == total
    case Any => succeeded > 0
    case Always => total > 0
  }

  function StatusOf(p: ResponsePolicy, s: Summary): nat {
    if Accepts(p, s.succeeded, s.total) then 200 else if s.timedOut then 504 else 502
  }

  /** How many targets answered with a 2xx status. */
  function CountSuccesses(outcomes: seq<Outcome>): nat {
    if outcomes == [] then 0
    else (if IsSuccess(outcomes[0]) then 1 else 0) + CountSuccesses(outcomes[1..])
  }

  function Summarize(outcomes: seq<Outcome>): Summary {
    Summary(|outcomes|, CountSuccesses(outcomes), TimedOut in outcomes)
  }

  lemma {:induction false} CountOfConcat(a: seq<Outcome>, b: seq<Outcome>)
    ensures CountSuccesses(a + b) == CountSuccesses(a) + CountSuccesses(b)
  {
    if a == [] {
      assert a + b == b;
    } else {
      assert (a + b)[1..] == a[1..] + b;
      CountOfConcat(a[1..], b);
    }
  }

  function Without(b: seq<Outcome>, j: nat): seq<Outcome>
    requires j < |b|
  {
    b[..j] + b[j + 1..]
  }

  lemma CountWithout(b: seq<Outcome>, j: nat)
    requires j < |b|
    ensures CountSuccesses(b) == (if IsSuccess(b[j]) then 1 else 0) + CountSuccesses(Without(b, j))
  {
    assert b == b[..j] + b[j..];
    assert b[j..][1..] == b[j + 1..];
    CountOfConcat(b[..j], b[j..]);
    CountOfConcat(b[..j], b[j + 1..]);
  }

  lemma MultisetWithout(b: seq<Outcome>, j: nat)
    requires j < |b|
    ensures multiset(Without(b, j)) == multiset(b) - multiset{b[j]}
  {
    assert b == b[..j] + [b[j]] + b[j + 1..];
  }

  lemma {:induction false} CountPermutes(a: seq<Outcome>, b: seq<Outcome>)
    requires multiset(a) == multiset(b)
    ensures CountSuccesses(a) == CountSuccesses(b) && |a| == |b|
    decreases |a|
  {
    assert |multiset(a)| == |a| && |multiset(b)| == |b|;
    if a != [] {
      assert a[0] in multiset(b);
      var j :| 0 <= j < |b| && b[j] == a[0];
      CountWithout(a, 0);
      CountWithout(b, j);
      MultisetWithout(a, 0);
      MultisetWithout(b, j);
      CountPermutes(Without(a, 0), Without(b, j));
    }
  }

  /** The indices of the answers with a status from 200 to 299. */
  function Answered2xx(outcomes: seq<Outcome>): set<int> {
    set i | 0 <= i < |outcomes| && outcomes[i].Status? && outcomes[i].code / 100 == 2
  }

  lemma {:induction false} SuccessesSpelledOut(outcomes: seq<Outcome>)
    ensures CountSuccesses(outcomes) == |Answered2xx(outcomes)|
  {
    if outcomes != [] {
      var n := |outcomes| - 1;
      SuccessesSpelledOut(outcomes[..n]);
      CountOfConcat(outcomes[..n], outcomes[n..]);
      assert outcomes[..n] + outcomes[n..] == outcomes && outcomes[n..] == [outcomes[n]];
      assert outcomes[n..][1..] == [];
      assert Answered2xx(outcomes)
          == Answered2xx(outcomes[..n]) + if n in Answered2xx(outcomes) then {n} else {};
    }
  }

  lemma FailuresSpelledOut(outcomes: seq<Outcome>)
    ensures |outcomes| - CountSuccesses(outcomes)
         == |set i | 0 <= i < |outcomes| && !(outcomes[i].Status? && outcomes[i].code / 100 == 2)|
  {
    SuccessesSpelledOut(outcomes);
    var good := Answered2xx(outcomes);
    var bad := set i | 0 <= i < |outcomes| && !(outcomes[i].Status? && outcomes[i].code / 100 == 2);
    IndicesOf(outcomes);
    assert good + bad == Indices(outcomes) && good !! bad;
  }

  function Indices(outcomes: seq<Outcome>): set<int> {
    set i | 0 <= i < |outcomes| && outcomes[i] in outcomes
  }

  lemma {:induction false} IndicesOf(outcomes: seq<Outcome>)
    ensures |Indices(outcomes)| == |outcomes|
  {
    if outcomes != [] {
      var n := |outcomes| - 1;
      IndicesOf(outcomes[..n]);
      assert Indices(outcomes) == Indices(outcomes[..n]) + {n};
    }
  }

  /** Spawns one task per target and joins them in whatever order they finish.
      `outcomes` is what the task of each target ends with. */
  method DispatchAll(targets: seq<DispatchTarget>, outcomes: seq<Outcome>) returns (s: Summary)
    requires |outcomes| == |targets|
    ensures s == Summarize(outcomes)
    ensures s.total == |targets|
    ensures s.succeeded == |set i | 0 <= i < |outcomes| && outcomes[i].Status? && outcomes[i].code / 100 == 2|
    ensures s.timedOut <==> exists i :: 0 <= i < |outcomes| && outcomes[i] == TimedOut
  {
    SuccessesSpelledOut(outcomes);
    var total := |targets|;
    var deliveries: multiset<Outcome> := multiset{};
    for i := 0 to total
      invariant deliveries == multiset(outcomes[..i])
    {
      assert outcomes[..i + 1] == outcomes[..i] + [outcomes[i]];
      deliveries := deliveries + multiset{outcomes[i]};
    }
    assert outcomes[..total] == outcomes;
    var succeeded: nat, timedOut := 0, false;
    ghost var joined: seq<Outcome> := [];
    while deliveries != multiset{}
      invariant deliveries + multiset(joined) == multiset(outcomes)
      invariant succeeded == CountSuccesses(joined)
      invariant timedOut <==> TimedOut in joined
      decreases |deliveries|
    {
      var result :| result in deliveries;
      deliveries := deliveries - multiset{result};
      CountOfConcat(joined, [result]);
      joined := joined + [result];
      match result {
        case Status(code) =>
          if 200 <= code < 300 {
            succeeded := succeeded + 1;
          }
        case RequestError =>
        case TimedOut => timedOut := true;
        case Panicked =>
      }
    }
    CountPermutes(joined, outcomes);
    assert TimedOut in joined <==> TimedOut in multiset(joined);
    assert TimedOut in outcomes <==> TimedOut in multiset(outcomes);
    return Summary(total, succeeded, timedOut);
  }

  /** The summary, and with it the response, does not depend on the order in
      which targets were found or tasks finished. */
  lemma SummaryIsOrderFree(a: seq<Outcome>, b: seq<Outcome>)
    requires multiset(a) == multiset(b)
    ensures Summarize(a) == Summarize(b)
  {
    CountPermutes(a, b);
    assert TimedOut in a <==> TimedOut in multiset(a);
    assert TimedOut in b <==> TimedOut in multiset(b);
  }

  lemma {:induction false} CountMeaning(outcomes: seq<Outcome>)
    ensures CountSuccesses(outcomes) <= |outcomes|
    ensures CountSuccesses(outcomes) == |outcomes| <==> forall o :: o in outcomes ==> IsSuccess(o)
    ensures CountSuccesses(outcomes) > 0 <==> exists o :: o in outcomes && IsSuccess(o)
  {
    if outcomes != [] {
      CountMeaning(outcomes[1..]);
      assert outcomes == [outcomes[0]] + outcomes[1..];
    }
  }

  /** What a policy asks of the targets: `All` that every one answers with a 2xx
      status, `Any` that one does, `Always` that there is one. */
  ghost predicate Satisfied(p: ResponsePolicy, outcomes: seq<Outcome>) {
    match p
    case All => outcomes != [] && forall i :: 0 <= i < |outcomes| ==> outcomes[i].Status? && outcomes[i].code / 100 == 2
    case Any => exists i :: 0 <= i < |outcomes| && outcomes[i].Status? && outcomes[i].code / 100 == 2
    case Always => outcomes != []
  }

  lemma SuccessesByIndex(outcomes: seq<Outcome>)
    ensures (forall o :: o in outcomes ==> IsSuccess(o))
       <==> forall i :: 0 <= i < |outcomes| ==> outcomes[i].Status? && outcomes[i].code / 100 == 2
    ensures (exists o :: o in outcomes && IsSuccess(o))
       <==> exists i :: 0 <= i < |outcomes| && outcomes[i].Status? && outcomes[i].code / 100 == 2
  {
    assert forall o: Outcome :: IsSuccess(o) <==> o.Status? && o.code / 100 == 2;
    if o :| o in outcomes && IsSuccess(o) {
      var i :| 0 <= i < |outcomes| && outcomes[i] == o;
      assert outcomes[i].Status? && outcomes[i].code / 100 == 2;
    }
  }

  /** The answer is 200 exactly when the policy is satisfied; otherwise it is a
      timeout exactly when a target timed out. The number of failures never
      underflows. */
  lemma ResponseMeaning(p: ResponsePolicy, outcomes: seq<Outcome>)
    ensures Summarize(outcomes).succeeded <= Summarize(outcomes).total
    ensures StatusOf(p, Summarize(outcomes)) == 200 <==> Satisfied(p, outcomes)
    ensures StatusOf(p, Summarize(outcomes)) != 200 ==>
              (StatusOf(p, Summarize(outcomes)) == 504 <==> TimedOut in outcomes)
              && (StatusOf(p, Summarize(outcomes)) == 502 <==> TimedOut !in outcomes)
  {
    CountMeaning(outcomes);
    SuccessesByIndex(outcomes);
  }

  /** A target that does better never costs the request its acceptance, and the
      policies are ordered by strictness. */
  lemma AcceptanceIsMonotone(p: ResponsePolicy, outcomes: seq<Outcome>, i: nat, better: Outcome)
    requires i < |outcomes| && better.Status? && better.code / 100 == 2
    requires StatusOf(p, Summarize(outcomes)) == 200
    ensures StatusOf(p, Summarize(outcomes[i := better])) == 200
    ensures p.All? ==> StatusOf(Any, Summarize(outcomes)) == 200
    ensures StatusOf(Always, Summarize(outcomes)) == 200
  {
    var improved := outcomes[i := better];
    ResponseMeaning(p, outcomes);
    ResponseMeaning(Any, outcomes);
    ResponseMeaning(Always, outcomes);
    ResponseMeaning(p, improved);
    assert improved[i] in improved && outcomes[i] in outcomes;
    assert forall o :: o in improved ==> o == better || o in outcomes;
  }
}
