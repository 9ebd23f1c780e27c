/**
 * The evaluator registry: a factory from evaluator kind to a long-lived
 * evaluator instance, and the lookup that returns the stored instance or
 * nothing (a null pointer in the source).
 */
module EvaluatorRegistry {
  import opened PredictionTypes

  /** An evaluator instance; only its kind and the name it reports matter here. */
  datatype Evaluator = Evaluator(kind: EvaluatorType, name: string)

  /** evaluators_: kind to stored instance, where None is a stored null pointer. */
  type Registry = map<EvaluatorType, Option<Evaluator>>

  const LANE_SCANNING_NAME: string := "LANE_SCANNING_EVALUATOR"

  /** The kinds the constructor registers, in the order it registers them. */
  const REGISTERED_KINDS: seq<EvaluatorType> := [
    MlpEvaluator, RnnEvaluator, CostEvaluator, CruiseMlpEvaluator,
    JunctionMlpEvaluator, CyclistKeepLaneEvaluator, LaneScanningEvaluator,
    PedestrianInteractionEvaluator, JunctionMapEvaluator
  ]

  predicate Supported(t: EvaluatorType)
  {
    !t.OtherEvaluator?
  }

  /** The factory: an instance for each known kind, null for any other. */
  function CreateEvaluator(t: EvaluatorType): (r: Option<Evaluator>)
    ensures r.Some? <==> Supported(t)
    ensures r.Some? ==> r.value.kind == t
    ensures r.Some? ==> (r.value.name == LANE_SCANNING_NAME <==> t == LaneScanningEvaluator)
  {
    match t
    case MlpEvaluator => Some(Evaluator(t, "MLP_EVALUATOR"))
    case CruiseMlpEvaluator => Some(Evaluator(t, "CRUISE_MLP_EVALUATOR"))
    case JunctionMlpEvaluator => Some(Evaluator(t, "JUNCTION_MLP_EVALUATOR"))
    case RnnEvaluator => Some(Evaluator(t, "RNN_EVALUATOR"))
    case CostEvaluator => Some(Evaluator(t, "COST_EVALUATOR"))
    case CyclistKeepLaneEvaluator => Some(Evaluator(t, "CYCLIST_KEEP_LANE_EVALUATOR"))
    case LaneScanningEvaluator => Some(Evaluator(t, LANE_SCANNING_NAME))
    case PedestrianInteractionEvaluator => Some(Evaluator(t, "PEDESTRIAN_INTERACTION_EVALUATOR"))
    case JunctionMapEvaluator => Some(Evaluator(t, "JUNCTION_MAP_EVALUATOR"))
    case OtherEvaluator(_) => None
  }

  /** The stored instance, or None when the kind is absent or maps to null. */
  function GetEvaluator(reg: Registry, t: EvaluatorType): (r: Option<Evaluator>)
    ensures r.Some? <==> t in reg && reg[t].Some?
    ensures r.Some? ==> r == reg[t]
  {
    if t in reg then reg[t] else None
  }

  /** The registry after registering `kinds` in order, each with the factory's instance. */
  function RegisterAll(reg: Registry, kinds: seq<EvaluatorType>): Registry
    decreases |kinds|
  {
    if kinds == [] then reg
    else
      var last := kinds[|kinds| - 1];
      RegisterAll(reg, kinds[..|kinds| - 1])[last := CreateEvaluator(last)]
  }

  /**
   * Registering `kinds` adds exactly those keys, each bound to the factory's
   * instance, and leaves every other entry as it was.
   */
  lemma {:induction false} RegisterAllContents(reg: Registry, kinds: seq<EvaluatorType>)
    ensures forall t :: t in RegisterAll(reg, kinds) <==> t in reg || t in kinds
    ensures forall t :: t in kinds ==> RegisterAll(reg, kinds)[t] == CreateEvaluator(t)
    ensures forall t :: t !in kinds && t in reg ==> RegisterAll(reg, kinds)[t] == reg[t]
    decreases |kinds|
  {
    if kinds != [] {
      var prefix := kinds[..|kinds| - 1];
      RegisterAllContents(reg, prefix);
      assert kinds == prefix + [kinds[|kinds| - 1]];
    }
  }

  /** The registered kinds are exactly the kinds the factory supports. */
  lemma RegisteredKindsSupported()
    ensures forall t :: t in REGISTERED_KINDS <==> Supported(t)
  {
  }

  /** Every stored value is what the factory made for its key. */
  ghost predicate Valid(reg: Registry)
  {
    forall t :: t in reg ==> reg[t] == CreateEvaluator(t)
  }

  /** Storing the factory's result keeps the registry valid. */
  lemma RegisterKeepsValid(reg: Registry, t: EvaluatorType)
    requires Valid(reg)
    ensures Valid(reg[t := CreateEvaluator(t)])
    ensures GetEvaluator(reg[t := CreateEvaluator(t)], t).Some? <==> Supported(t)
  {
  }

  /**
   * In a valid registry the looked-up instance reports the lane-scanning
   * name exactly when the lane-scanning kind was looked up.
   */
  lemma ScanningNameIdentifiesKind(reg: Registry, t: EvaluatorType)
    requires Valid(reg)
    requires GetEvaluator(reg, t).Some?
    ensures GetEvaluator(reg, t).value.kind == t
    ensures GetEvaluator(reg, t).value.name == LANE_SCANNING_NAME <==> t == LaneScanningEvaluator
  {
  }
}
