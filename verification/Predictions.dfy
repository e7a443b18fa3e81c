/** Recording the outcome of a registered prediction (`recordOutcome`). */
module Predictions {
  import opened Collections
  import opened Json
  import opened Canonical
  import opened CanonicalLaws
  import opened Rows

  datatype Prediction = Prediction(org: string, target: Json, receipt: Id, registeredAt: int)

  datatype Observation = Observation(
    prediction: Id, target: Option<Json>, receipt: Option<Id>, observedAt: int, evaluationRun: Option<Id>)

  datatype Reply = NodeRevoked | NotFound | TargetMismatch | ObservedTooEarly | OutcomeExists | Recorded

  /** The request restates the prediction it observes. */
  predicate Restates(p: Prediction, o: Observation) {
    && (o.target.Some? ==> Same(o.target.value, p.target))
    && (o.receipt.Some? ==> o.receipt.value == p.receipt)
  }

  class OutcomeLedger {
    var predictions: map<Id, Prediction>
    var outcomes: map<Id, Observation>

    constructor (registered: map<Id, Prediction>)
      ensures predictions == registered && outcomes == map[]
    {
      predictions, outcomes := registered, map[];
    }

    /** Exactly once per prediction; the prediction row is never touched; a mismatch is answered exactly
        when the restated target differs beyond member order, or the receipt differs. */
    method RecordOutcome(org: string, revoked: bool, o: Observation, ownRuns: set<Id>) returns (reply: Reply)
      requires forall id :: id in predictions ==> WellFormed(predictions[id].target)
      requires o.target.Some? ==> WellFormed(o.target.value)
      modifies this`outcomes
      ensures reply == Recorded <==>
                && !revoked && o.prediction in predictions && predictions[o.prediction].org == org
                && Restates(predictions[o.prediction], o) && o.observedAt >= predictions[o.prediction].registeredAt
                && (o.evaluationRun.Some? ==> o.evaluationRun.value in ownRuns)
                && o.prediction !in old(outcomes)
      ensures reply == TargetMismatch <==>
                && !revoked && o.prediction in predictions && predictions[o.prediction].org == org
                && !Restates(predictions[o.prediction], o)
      ensures outcomes == if reply == Recorded then old(outcomes)[o.prediction := o] else old(outcomes)
    {
      if revoked {
        return NodeRevoked;
      }
      if o.prediction !in predictions || predictions[o.prediction].org != org {
        return NotFound;
      }
      var p := predictions[o.prediction];
      if o.target.Some? {
        CanonicalFaithful(o.target.value, p.target);
        if Canonicalize(o.target.value) != Canonicalize(p.target) {
          return TargetMismatch;
        }
      }
      if o.receipt.Some? && o.receipt.value != p.receipt {
        return TargetMismatch;
      }
      if o.observedAt < p.registeredAt {
        return ObservedTooEarly;
      }
      if o.evaluationRun.Some? && o.evaluationRun.value !in ownRuns {
        return NotFound;
      }
      if o.prediction in outcomes {
        return OutcomeExists;
      }
      outcomes := outcomes[o.prediction := o];
      reply := Recorded;
    }
  }
}
