/** One request from arrival to answer: where its ingress permit is taken and
    given back. How requests overlap is the subject of `Dispatch`. */
module Forward {
  import opened Leases
  import opened Aggregation
  import opened Dispatch

  datatype Body = Complete | TooLarge | Broken

  class Ingress {
    const limits: Limits
    /** The free permits for requests. */
    var inflightRequests: nat

    constructor (limits: Limits)
      ensures this.limits == limits && inflightRequests == limits.maxInflight
    {
      this.limits := limits;
      inflightRequests := limits.maxInflight;
    }

    /** `targets` is what the registry matched, and `outcomes` what their
        deliveries end with. The permit is back on every path. */
    method Forward(targets: seq<DispatchTarget>, body: Body, outcomes: seq<Outcome>) returns (response: Response)
      requires |outcomes| == |targets|
      modifies this
      ensures inflightRequests == old(inflightRequests)
      ensures old(inflightRequests) == 0 ==> response == Response(503, 0, 0, 0, "ingress-capacity")
      ensures old(inflightRequests) > 0 && targets == [] ==>
                response == Response(if limits.acceptWhenEmpty then 200 else 503, 0, 0, 0, "no-targets")
      ensures old(inflightRequests) > 0 && targets != [] && body.TooLarge? ==>
                response == Response(413, |targets|, 0, 0, "body-too-large")
      ensures old(inflightRequests) > 0 && targets != [] && body.Broken? ==>
                response == Response(400, |targets|, 0, 0, "body-read-failed")
      ensures old(inflightRequests) > 0 && targets != [] && body.Complete? ==>
                IsAnswer(limits.policy, outcomes, response)
    {
      if inflightRequests == 0 {
        return ShortCircuit(503, 0, "ingress-capacity");
      }
      inflightRequests := inflightRequests - 1;
      if targets == [] {
        inflightRequests := inflightRequests + 1;
        return ShortCircuit(if limits.acceptWhenEmpty then 200 else 503, 0, "no-targets");
      }
      if !body.Complete? {
        inflightRequests := inflightRequests + 1;
        return if body.TooLarge? then ShortCircuit(413, |targets|, "body-too-large")
               else ShortCircuit(400, |targets|, "body-read-failed");
      }
      var summary := DispatchAll(targets, outcomes);
      inflightRequests := inflightRequests + 1;
      AggregateIsAnswer(limits, outcomes);
      return Aggregate(limits, summary);
    }
  }
}
