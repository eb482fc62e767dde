/** The execution policy: deny lists, allow lists, the mode, and confirmation for writes. */
module Policy {
  import opened Text

  datatype Config = Config(
    mode: string,
    allowedMethods: seq<string>, deniedMethods: seq<string>,
    allowedOperations: seq<string>, deniedOperations: seq<string>,
    confirmWrites: bool)

  datatype Evaluator = Evaluator(
    mode: string,
    allowedMethods: set<string>, deniedMethods: set<string>,
    allowedOperations: set<string>, deniedOperations: set<string>,
    confirmWrites: bool)

  datatype Decision = Decision(allow: bool, code: string, needsConfirmation: bool)

  const PLAN_ONLY := "plan_only"
  const EXECUTE_READONLY := "execute_readonly"
  const EXECUTE_WRITE := "execute_write"
  const SANDBOX := "sandbox"

  const DENIED := Decision(false, "policy_denied", false)
  const PLAN := Decision(false, "plan_only", false)
  const CONFIRM := Decision(false, "confirmation_required", true)
  const ALLOW := Decision(true, "", false)

  function ModeOf(text: string): string {
    var mode := ToLower(TrimSpace(text));
    if mode == "" then PLAN_ONLY else mode
  }

  function EvaluatorOf(cfg: Config): Evaluator {
    Evaluator(ModeOf(cfg.mode),
              CleanedSet(cfg.allowedMethods, Upper), CleanedSet(cfg.deniedMethods, Upper),
              CleanedSet(cfg.allowedOperations, TrimSpace), CleanedSet(cfg.deniedOperations, TrimSpace),
              cfg.confirmWrites)
  }

  method NewEvaluator(cfg: Config) returns (e: Evaluator)
    ensures e == EvaluatorOf(cfg)
  {
    var allowedMethods := CollectSet(cfg.allowedMethods, Upper);
    var deniedMethods := CollectSet(cfg.deniedMethods, Upper);
    var allowedOperations := CollectSet(cfg.allowedOperations, TrimSpace);
    var deniedOperations := CollectSet(cfg.deniedOperations, TrimSpace);
    e := Evaluator(ModeOf(cfg.mode), allowedMethods, deniedMethods, allowedOperations, deniedOperations,
                   cfg.confirmWrites);
  }

  predicate IsReadonlyMethod(verb: string) {
    Upper(verb) in {"GET", "HEAD", "OPTIONS"}
  }

  predicate IsWriteMethod(verb: string) {
    Upper(verb) in {"POST", "PUT", "PATCH", "DELETE"}
  }

  function Evaluate(e: Evaluator, operation: string, verb: string): Decision {
    var op, m := TrimSpace(operation), Upper(verb);
    if op != "" && op in e.deniedOperations then DENIED
    else if m != "" && m in e.deniedMethods then DENIED
    else if e.allowedOperations != {} && (op == "" || op !in e.allowedOperations) then DENIED
    else if e.allowedMethods != {} && (m == "" || m !in e.allowedMethods) then DENIED
    else if e.mode == PLAN_ONLY then PLAN
    else if e.mode == EXECUTE_READONLY then if IsReadonlyMethod(m) then ALLOW else DENIED
    else if e.mode != EXECUTE_WRITE && e.mode != SANDBOX then PLAN
    else if e.confirmWrites && IsWriteMethod(m) then CONFIRM
    else ALLOW
  }

  // ------------------------------------------------- what the decisions mean

  /** A deny list of the configuration names the operation or the method. */
  predicate DenyListed(cfg: Config, operation: string, verb: string) {
    || Lists(cfg.deniedOperations, TrimSpace, TrimSpace(operation))
    || Lists(cfg.deniedMethods, Upper, Upper(verb))
  }

  /** A list counts only if some entry is not blank. */
  predicate Active(values: seq<string>) {
    exists i :: 0 <= i < |values| && TrimSpace(values[i]) != ""
  }

  /** Both allow lists, as far as they count, name the call. */
  predicate AllowListed(cfg: Config, operation: string, verb: string) {
    && (Active(cfg.allowedOperations) ==> Lists(cfg.allowedOperations, TrimSpace, TrimSpace(operation)))
    && (Active(cfg.allowedMethods) ==> Lists(cfg.allowedMethods, Upper, Upper(verb)))
  }

  /** The configured mode, whatever its case and the spaces around it. */
  predicate InMode(cfg: Config, name: string) {
    ToLower(TrimSpace(cfg.mode)) == name
  }

  predicate WriteMode(cfg: Config) {
    InMode(cfg, "execute_write") || InMode(cfg, "sandbox")
  }

  predicate ReadonlyMode(cfg: Config) {
    InMode(cfg, "execute_readonly")
  }

  lemma ActiveMeansNonEmpty(values: seq<string>)
    ensures Active(values) <==> CleanedSet(values, TrimSpace) != {}
    ensures Active(values) <==> CleanedSet(values, Upper) != {}
  {
    hide TrimSpace, Upper;
    forall i | 0 <= i < |values|
      ensures (Upper(values[i]) == "") == (TrimSpace(values[i]) == "")
    {
      UpperTwice(values[i]);
    }
    if i :| 0 <= i < |values| && TrimSpace(values[i]) != "" {
      assert TrimSpace(values[i]) in CleanedSet(values, TrimSpace);
      assert Upper(values[i]) in CleanedSet(values, Upper);
    }
  }

  /** The decision read off the configuration itself, for every call. */
  lemma DecisionTable(cfg: Config, operation: string, verb: string)
    ensures var d := Evaluate(EvaluatorOf(cfg), operation, verb);
            var passes := !DenyListed(cfg, operation, verb) && AllowListed(cfg, operation, verb);
            && (d.needsConfirmation <==> passes && WriteMode(cfg) && cfg.confirmWrites && Upper(verb) in {"POST", "PUT", "PATCH", "DELETE"})
            && (d.allow <==> (
                  && passes
                  && ((ReadonlyMode(cfg) && Upper(verb) in {"GET", "HEAD", "OPTIONS"}) ||
                      (WriteMode(cfg) && !(cfg.confirmWrites && Upper(verb) in {"POST", "PUT", "PATCH", "DELETE"})))))
            && (d.allow ==> d.code == "")
            && (d.code == "plan_only" <==> passes && !ReadonlyMode(cfg) && !WriteMode(cfg))
            && (!d.allow && d.code != "plan_only" ==> d.code == if d.needsConfirmation then "confirmation_required" else "policy_denied")
  {
    hide TrimSpace, Upper, ToLower;
    UpperTwice(verb);
    ModeMeans(cfg);
    ActiveMeansNonEmpty(cfg.allowedOperations);
    ActiveMeansNonEmpty(cfg.allowedMethods);
    ModesDiffer();
    assert Upper(Upper(verb)) == Upper(verb);
  }

  lemma ModeMeans(cfg: Config)
    ensures ModeOf(cfg.mode) == EXECUTE_WRITE <==> InMode(cfg, "execute_write")
    ensures ModeOf(cfg.mode) == SANDBOX <==> InMode(cfg, "sandbox")
    ensures ModeOf(cfg.mode) == EXECUTE_READONLY <==> InMode(cfg, "execute_readonly")
  {
    hide TrimSpace, ToLower;
    ModesDiffer();
    assert |""| == 0;
  }

  lemma ModesDiffer()
    ensures PLAN_ONLY != EXECUTE_READONLY && PLAN_ONLY != EXECUTE_WRITE && PLAN_ONLY != SANDBOX
    ensures EXECUTE_READONLY != EXECUTE_WRITE && EXECUTE_READONLY != SANDBOX && EXECUTE_WRITE != SANDBOX
    ensures "policy_denied" != "plan_only" && "confirmation_required" != "plan_only"
  {
    assert |PLAN_ONLY| == 9 && |EXECUTE_READONLY| == 16 && |EXECUTE_WRITE| == 13 && |SANDBOX| == 7;
    assert |"policy_denied"| == 13 && |"confirmation_required"| == 21;
  }

  /** Longer deny lists refuse more and never allow more. */
  lemma MoreDenialsRefuseMore(cfg: Config, methods: seq<string>, operations: seq<string>, operation: string, verb: string)
    ensures var stricter := cfg.(deniedMethods := cfg.deniedMethods + methods,
                                 deniedOperations := cfg.deniedOperations + operations);
            var d := Evaluate(EvaluatorOf(stricter), operation, verb);
            d == DENIED || d == Evaluate(EvaluatorOf(cfg), operation, verb)
  {
    hide TrimSpace, Upper, ModeOf;
    ListsMore(cfg.deniedMethods, methods, Upper);
    ListsMore(cfg.deniedOperations, operations, TrimSpace);
  }
}
