/**
 What every controller shares: the managed object whose annotations, conditions and status the
 controllers update in place, and calls to Slack that may fail before or after they take effect.
 */
module Runtime {
  import opened Outcomes
  import opened Errors

  datatype ConditionType = Ready | Synced

  datatype Condition = Condition(status: bool, reason: string, message: string)

  type Conditions = map<ConditionType, Condition>

  const AVAILABLE: Condition := Condition(true, "Available", "")

  /** The annotations and status of a managed object. */
  datatype Meta<+O> = Meta(externalName: string, conditions: Conditions, atProvider: O) {
    /** Conditions are kept one per type; setting one replaces the one before. */
    function With(kind: ConditionType, condition: Condition): Meta<O> {
      this.(conditions := this.conditions[kind := condition])
    }
  }

  /** A managed object: the spec is the user's, the rest is the controller's to update. */
  class Managed<S, O> {
    const spec: S
    var externalName: string
    var conditions: Conditions
    var atProvider: O

    constructor (spec: S, meta: Meta<O>)
      ensures this.spec == spec && View() == meta
    {
      this.spec := spec;
      externalName, conditions, atProvider := meta.externalName, meta.conditions, meta.atProvider;
    }

    function View(): Meta<O>
      reads this
    {
      Meta(externalName, conditions, atProvider)
    }

    method SetCondition(kind: ConditionType, condition: Condition)
      modifies this`conditions
      ensures View() == old(View()).With(kind, condition)
    {
      conditions := conditions[kind := condition];
    }
  }

  datatype Observation = Observation(present: bool, upToDate: bool)

  const MISSING: Observation := Observation(false, false)

  // ---------- Calls that may be lost ----------

  /** What the network does to one call: it goes through, fails before Slack acts on it, or takes
      effect while its response is lost. */
  datatype Fault = Deliver | Drop(cause: Error) | Lose(cause: Error)

  type Faults = nat -> Fault

  /** The remote state, and how many calls have been made to it. */
  datatype Net<+W> = Net(world: W, calls: nat)

  /** One call, given what Slack would make of it: its new state and its answer. */
  function Transit<W, R>(faults: Faults, net: Net<W>, outcome: (W, Result<R, Error>)): (Net<W>, Result<R, Error>) {
    match faults(net.calls)
    case Deliver => (Net(outcome.0, net.calls + 1), outcome.1)
    case Drop(e) => (Net(net.world, net.calls + 1), Err(e))
    case Lose(e) => (Net(outcome.0, net.calls + 1), Err(e))
  }

  ghost predicate Calm(faults: Faults) {
    forall i :: faults(i).Deliver?
  }

  /** No fault is reported with one of the given Slack codes: those come from Slack alone. */
  ghost predicate FaultsSpare(faults: Faults, codes: set<string>) {
    forall i, code | code in codes ::
      (faults(i).Drop? || faults(i).Lose?) ==> !HasCode(faults(i).cause, code)
  }

  /** The value a form parameter brings, or what stands if it is not sent. */
  function Sent(form: map<string, string>, key: string, otherwise: string): string {
    if key in form then form[key] else otherwise
  }

  function Rejection(code: string): Error {
    SlackError(code, "slack API returned error: " + code)
  }
}
