/** The order in which one job may check the budget, call the model and record usage. */
module JobProtocol {
  import opened Text
  import opened UsageEvents

  /** Ready: no call outstanding. Checking: reading usage. Calling: admitted, its usage not yet recorded. */
  datatype Phase = Ready | Checking | Calling

  datatype Act =
    | BeginCheck  // start reading the tenant's usage
    | Admit       // the check allowed the call
    | Refuse      // the check refused the call or failed
    | Fail        // every provider failed
    | Record(usage: LLMUsage)      // the completed call's usage event is emitted
    | Unrecorded(usage: LLMUsage)  // the completed call is used without emitting its usage

  function Advance(p: Phase, a: Act): Option<Phase> {
    match (p, a)
    case (Ready, BeginCheck) => Some(Checking)
    case (Checking, Admit) => Some(Calling)
    case (Checking, Refuse) => Some(Ready)
    case (Calling, Fail) => Some(Ready)
    case (Calling, Record(_)) => Some(Ready)
    case (Calling, Unrecorded(_)) => Some(Ready)
    case _ => None
  }

  /** The phase after acts, or None when some act comes out of order. */
  function AdvanceAll(p: Phase, acts: seq<Act>): Option<Phase>
    decreases |acts|
  {
    if acts == [] then Some(p)
    else
      match Advance(p, acts[0])
      case None => None
      case Some(q) => AdvanceAll(q, acts[1..])
  }

  lemma {:induction false} AdvanceConcat(p: Phase, a: seq<Act>, b: seq<Act>)
    ensures AdvanceAll(p, a + b)
         == match AdvanceAll(p, a) { case None => None case Some(q) => AdvanceAll(q, b) }
    decreases |a|
  {
    if a == [] {
      assert a + b == b;
    } else {
      assert (a + b)[0] == a[0] && (a + b)[1..] == a[1..] + b;
      if Advance(p, a[0]).Some? {
        AdvanceConcat(Advance(p, a[0]).value, a[1..], b);
      }
    }
  }

  predicate IsRecord(a: Act) {
    a.Record?
  }

  predicate IsUnrecorded(a: Act) {
    a.Unrecorded?
  }

  /** How many of the acts are of a kind. */
  function Number(acts: seq<Act>, kind: Act -> bool): nat
    decreases |acts|
  {
    if acts == [] then 0 else (if kind(acts[0]) then 1 else 0) + Number(acts[1..], kind)
  }

  lemma {:induction false} NumberConcat(a: seq<Act>, b: seq<Act>, kind: Act -> bool)
    ensures Number(a + b, kind) == Number(a, kind) + Number(b, kind)
    decreases |a|
  {
    if a == [] {
      assert a + b == b;
    } else {
      assert (a + b)[0] == a[0] && (a + b)[1..] == a[1..] + b;
      NumberConcat(a[1..], b, kind);
    }
  }
}
