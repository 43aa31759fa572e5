/** The gates that read the caller's tier, tool and scope label, and the confidence and
    human-in-the-loop gates behind them. */
module Gates {
  import opened Trace

  const ACTUATION_SCOPES: set<string> := {"MANIPULATE", "NAVIGATE", "ACTUATE", "EXECUTE", "COMMISSION"}
  const MOTION_SCOPES: set<string> := {"MANIPULATE", "NAVIGATE", "ACTUATE", "EXECUTE"}
  const NON_ACTUATING_TIERS: set<string> := {"read", "anon"}
  const COMMISSION := "COMMISSION"
  const COMMISSION_TIER := "commission"

  /** `str.upper`, whatever it does outside ASCII. */
  type Upper = string -> string

  predicate IsActuationScope(upper: Upper, scope: string) {
    upper(scope) in ACTUATION_SCOPES
  }

  /** `check_tool_scope`: a tool that moves the robot needs a scope that says so. */
  predicate ToolScopeAllows(upper: Upper, tool: string, scope: string, motionTools: set<string>) {
    tool in motionTools ==> IsActuationScope(upper, scope)
  }

  /** `check_tier` */
  predicate TierAllows(upper: Upper, tier: string, scope: string) {
    if tier in NON_ACTUATING_TIERS && upper(scope) in ACTUATION_SCOPES then false
    else !(upper(scope) == COMMISSION && tier != COMMISSION_TIER)
  }

  /** `check_tool_tier` */
  predicate ToolTierAllows(tool: string, tier: string, requirements: map<string, set<string>>) {
    tool in requirements ==> tier in requirements[tool]
  }

  // ---- confidence --------------------------------------------------------------------------

  type Thresholds = map<string, real>

  const DEFAULT_STRICT := 0.95

  function Listed(thresholds: Thresholds, key: string): real {
    if key in thresholds then thresholds[key] else DEFAULT_STRICT
  }

  function Max(a: real, b: real): real {
    if a < b then b else a
  }

  /** `threshold_for` */
  function ThresholdFor(upper: Upper, thresholds: Thresholds, scope: string, motion: bool): real {
    var own := Listed(thresholds, upper(scope));
    if motion then
      Max(own, Max(Max(Listed(thresholds, "MANIPULATE"), Listed(thresholds, "NAVIGATE")),
                   Max(Listed(thresholds, "ACTUATE"), Listed(thresholds, "EXECUTE"))))
    else own
  }

  /** `check_confidence` */
  predicate ConfidenceAllows(upper: Upper, thresholds: Thresholds, confidence: Option<real>, scope: string, motion: bool) {
    confidence.Some? && confidence.value >= ThresholdFor(upper, thresholds, scope, motion)
  }

  // ---- human in the loop -------------------------------------------------------------------

  /** `requires`: for a tool that moves the robot, a gate on any motion scope is a gate on all. */
  predicate HitlRequired(upper: Upper, required: set<string>, scope: string, motion: bool) {
    upper(scope) in required || (motion && required * MOTION_SCOPES != {})
  }

  /** One hop of a delegation chain: its scope, None when it is not a string, and whether it names a
      human. */
  datatype Hop = Hop(scope: Option<string>, human: bool)

  /** `check_hitl` */
  predicate HitlAllows(upper: Upper, required: set<string>, scope: string, chain: seq<Hop>, motion: bool) {
    HitlRequired(upper, required, scope, motion) ==>
      && chain != []
      && var last := chain[|chain| - 1];
         last.scope.Some? && upper(last.scope.value) == upper(scope) && last.human
  }

  /** A manifest's `safety.hitl_gates` entry. */
  datatype ManifestGate = ManifestGate(scope: string, requireAuth: bool)

  function GateScopes(scope: string): set<string> {
    if scope == "destructive" then {"MANIPULATE"}
    else if scope == "system" then {"EXECUTE", "ACTUATE"}
    else if scope == "commission" then {"COMMISSION"}
    else {}
  }

  /** The RCAN scopes a manifest's gates cover. */
  ghost function Covered(gates: seq<ManifestGate>): set<string> {
    set i, s | 0 <= i < |gates| && gates[i].requireAuth && s in GateScopes(gates[i].scope) :: s
  }

  /** `from_manifest_gates` */
  method FromManifestGates(gates: seq<ManifestGate>) returns (scopes: set<string>)
    ensures scopes == Covered(gates)
  {
    scopes := {};
    for i := 0 to |gates|
      invariant scopes == Covered(gates[..i])
    {
      assert gates[..i + 1] == gates[..i] + [gates[i]];
      if gates[i].requireAuth {
        scopes := scopes + GateScopes(gates[i].scope);
      }
    }
    assert gates[..|gates|] == gates;
  }

  // ---- no label buys anything --------------------------------------------------------------

  /** A chain whose last hop names this scope instead. */
  function Relabelled(chain: seq<Hop>, scope: string): seq<Hop> {
    if chain == [] then [] else chain[|chain| - 1 := chain[|chain| - 1].(scope := Some(scope))]
  }

  /** If a declared motion tool gets through the label-reading gates under some scope, it gets
      through under every motion scope in any letter case. */
  lemma NoLabelBuysAnything(upper: Upper, tier: string, tool: string, scope: string, other: string,
                            motionTools: set<string>, thresholds: Thresholds, confidence: Option<real>,
                            required: set<string>, chain: seq<Hop>)
    requires tool in motionTools && upper(other) in MOTION_SCOPES
    requires ToolScopeAllows(upper, tool, scope, motionTools)
    ensures ToolScopeAllows(upper, tool, other, motionTools)
    ensures TierAllows(upper, tier, scope) ==> TierAllows(upper, tier, other)
    ensures ConfidenceAllows(upper, thresholds, confidence, scope, true) ==>
              ConfidenceAllows(upper, thresholds, confidence, other, true)
    ensures HitlAllows(upper, required, scope, chain, true) ==>
              HitlAllows(upper, required, other, Relabelled(chain, other), true)
  {
    if HitlRequired(upper, required, other, true) {
      if upper(other) in required {
        assert upper(other) in required * MOTION_SCOPES;
      }
      assert HitlRequired(upper, required, scope, true);
    }
  }
}
