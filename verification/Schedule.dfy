/** The correction schedule estimate, the configuration check built on it, and the transaction timeout. */
module Schedule {
  import opened Common
  import opened Keys

  const U64_MAX: nat := 0xFFFF_FFFF_FFFF_FFFF
  const MODIFIER_SYNC_MS: nat := 20
  const KEY_TAP_MS: nat := 2
  const SHIFT_SETTLE_MS: nat := 1
  const MAX_KEYSTROKES: nat := 128
  const MAX_EXTRA_BACKSPACES: nat := 1
  const MAX_SCHEDULE_MS: nat := 4000
  const LAYOUT_DELAY_MAX_MS: nat := 500
  const INPUT_KEY_DELAY_MAX_MS: nat := 10
  const BACKEND_GRACE_MS: nat := 1000
  const MAX_TRANSACTION_MS: nat := 5000

  function TapMs(shift: bool): nat {
    KEY_TAP_MS + if shift then SHIFT_SETTLE_MS else 0
  }

  function CheckedAdd(a: Option<nat>, b: Option<nat>): Option<nat> {
    if a.Some? && b.Some? && a.value + b.value <= U64_MAX then Some(a.value + b.value) else None
  }

  function CheckedMul(a: Option<nat>, b: Option<nat>): Option<nat> {
    if a.Some? && b.Some? && a.value * b.value <= U64_MAX then Some(a.value * b.value) else None
  }

  /** `estimated_correction_schedule_ms`, in checked 64-bit arithmetic. */
  function Estimate(strokes: nat, extra: nat, layoutMs: nat, backspaceMs: nat, typingMs: nat,
                    switchLayout: bool): Option<nat> {
    var backspaces := CheckedAdd(Some(strokes), Some(extra));
    var backspaceWork := CheckedMul(backspaces, CheckedAdd(Some(KEY_TAP_MS), Some(backspaceMs)));
    var typingWork := CheckedMul(Some(strokes),
                                 CheckedAdd(CheckedAdd(Some(KEY_TAP_MS), Some(SHIFT_SETTLE_MS)), Some(typingMs)));
    var layoutWork := if switchLayout then CheckedMul(Some(layoutMs), Some(2)) else Some(0);
    CheckedAdd(CheckedAdd(CheckedAdd(Some(MODIFIER_SYNC_MS), backspaceWork), typingWork), layoutWork)
  }

  /** The same schedule in unbounded arithmetic. */
  function Schedule(strokes: nat, extra: nat, layoutMs: nat, backspaceMs: nat, typingMs: nat, switchLayout: bool): nat {
    MODIFIER_SYNC_MS + (strokes + extra) * (KEY_TAP_MS + backspaceMs)
    + strokes * (KEY_TAP_MS + SHIFT_SETTLE_MS + typingMs)
    + if switchLayout then 2 * layoutMs else 0
  }

  function PlanSchedule(plan: Plan, config: Config, switchLayout: bool): nat {
    Schedule(|plan.buffer|, plan.extraBackspaces, config.layoutDelayMs, config.backspaceMs, config.typingMs,
             switchLayout)
  }

  /** The checked estimate is exact when it answers, and answers exactly when nothing overflows. */
  lemma EstimateExact(strokes: nat, extra: nat, layoutMs: nat, backspaceMs: nat, typingMs: nat, switchLayout: bool)
    ensures var total := Schedule(strokes, extra, layoutMs, backspaceMs, typingMs, switchLayout);
            Estimate(strokes, extra, layoutMs, backspaceMs, typingMs, switchLayout) ==
            if && KEY_TAP_MS + backspaceMs <= U64_MAX && KEY_TAP_MS + SHIFT_SETTLE_MS + typingMs <= U64_MAX
               && total <= U64_MAX
            then Some(total) else None
  {
    Grows(strokes + extra, KEY_TAP_MS + backspaceMs);
  }

  lemma Grows(a: nat, b: nat)
    requires b > 0
    ensures a <= a * b
  {
  }

  lemma MulMonotone(a: nat, a': nat, b: nat, b': nat)
    requires a <= a' && b <= b'
    ensures a * b <= a' * b'
  {
    assert a * b <= a' * b;
    assert a' * b <= a' * b';
  }

  lemma ScheduleMonotone(strokes: nat, extra: nat, layoutMs: nat, backspaceMs: nat, typingMs: nat, sw: bool,
                         strokes': nat, extra': nat, layoutMs': nat, backspaceMs': nat, typingMs': nat, sw': bool)
    requires strokes <= strokes' && extra <= extra' && layoutMs <= layoutMs'
    requires backspaceMs <= backspaceMs' && typingMs <= typingMs'
    requires sw ==> sw'
    ensures Schedule(strokes, extra, layoutMs, backspaceMs, typingMs, sw)
            <= Schedule(strokes', extra', layoutMs', backspaceMs', typingMs', sw')
  {
    MulMonotone(strokes + extra, strokes' + extra', KEY_TAP_MS + backspaceMs, KEY_TAP_MS + backspaceMs');
    MulMonotone(strokes, strokes', KEY_TAP_MS + SHIFT_SETTLE_MS + typingMs, KEY_TAP_MS + SHIFT_SETTLE_MS + typingMs');
  }

  datatype ConfigError = LayoutDelayOutOfRange | DuplicateHotkey | InputDelayOutOfRange | ScheduleTooLong(foundMs: nat)

  /** `AppConfig::validate`; the outcome of the hotkey conflict check is a parameter. */
  function Validate(config: Config, hotkeysConflict: bool): Option<ConfigError> {
    if config.layoutDelayMs > LAYOUT_DELAY_MAX_MS then Some(LayoutDelayOutOfRange)
    else if hotkeysConflict then Some(DuplicateHotkey)
    else if config.backspaceMs > INPUT_KEY_DELAY_MAX_MS || config.typingMs > INPUT_KEY_DELAY_MAX_MS then
      Some(InputDelayOutOfRange)
    else
      var found := Estimate(MAX_KEYSTROKES, MAX_EXTRA_BACKSPACES, config.layoutDelayMs, config.backspaceMs,
                            config.typingMs, true);
      var ms := if found.Some? then found.value else U64_MAX;
      if ms > MAX_SCHEDULE_MS then Some(ScheduleTooLong(ms)) else None
  }

  /** What a configuration is refused for, in numbers and in this order; any other is accepted. */
  lemma ValidateIff(config: Config, hotkeysConflict: bool)
    ensures var r := Validate(config, hotkeysConflict);
            var tooLate := config.layoutDelayMs > 500;
            var tooSlow := config.backspaceMs > 10 || config.typingMs > 10;
            var ms := 20 + 129 * (2 + config.backspaceMs) + 128 * (3 + config.typingMs) + 2 * config.layoutDelayMs;
            && (r == Some(LayoutDelayOutOfRange) <==> tooLate)
            && (r == Some(DuplicateHotkey) <==> !tooLate && hotkeysConflict)
            && (r == Some(InputDelayOutOfRange) <==> !tooLate && !hotkeysConflict && tooSlow)
            && (r == Some(ScheduleTooLong(ms)) <==> !tooLate && !hotkeysConflict && !tooSlow && ms > 4000)
            && (r.None? <==> !tooLate && !hotkeysConflict && !tooSlow && ms <= 4000)
  {
    EstimateExact(MAX_KEYSTROKES, MAX_EXTRA_BACKSPACES, config.layoutDelayMs, config.backspaceMs, config.typingMs,
                  true);
    hide Estimate;
  }

  /** `correction_transaction_timeout` with the plan limits of `estimated_correction_schedule`; None is an error. */
  function TransactionTimeout(plan: Plan, config: Config, switchLayout: bool): Option<nat> {
    if |plan.buffer| > MAX_KEYSTROKES || plan.extraBackspaces > MAX_EXTRA_BACKSPACES then None
    else
      var found := Estimate(|plan.buffer|, plan.extraBackspaces, config.layoutDelayMs, config.backspaceMs,
                            config.typingMs, switchLayout);
      if found.None? || found.value > MAX_SCHEDULE_MS then None else Some(found.value + BACKEND_GRACE_MS)
  }

  /** The timeout in numbers; it is refused for a plan that is too large, takes too long or overflows. */
  lemma TimeoutIff(plan: Plan, config: Config, switchLayout: bool)
    ensures var n, extra := |plan.buffer|, plan.extraBackspaces;
            var ms := 20 + (n + extra) * (2 + config.backspaceMs) + n * (3 + config.typingMs)
                      + (if switchLayout then 2 * config.layoutDelayMs else 0);
            var timeout := TransactionTimeout(plan, config, switchLayout);
            && (timeout.Some? <==>
                && n <= 128 && extra <= 1 && ms <= 4000
                && 2 + config.backspaceMs <= U64_MAX && 3 + config.typingMs <= U64_MAX)
            && (timeout.Some? ==> timeout.value == ms + 1000)
  {
    EstimateExact(|plan.buffer|, plan.extraBackspaces, config.layoutDelayMs, config.backspaceMs, config.typingMs,
                  switchLayout);
    hide Estimate;
  }

  /** A transaction's timeout is its schedule plus the grace. */
  lemma TimeoutCoversSchedule(plan: Plan, config: Config, switchLayout: bool)
    ensures var timeout := TransactionTimeout(plan, config, switchLayout);
            timeout.Some? ==>
              timeout.value == PlanSchedule(plan, config, switchLayout) + BACKEND_GRACE_MS <= MAX_TRANSACTION_MS
  {
    EstimateExact(|plan.buffer|, plan.extraBackspaces, config.layoutDelayMs, config.backspaceMs, config.typingMs,
                  switchLayout);
  }

  /** Under any validated configuration every plan within the limits is scheduled within 4 s, and gets
      a timeout of its schedule plus the grace, at most 5 s; larger plans are refused. */
  lemma ValidatedPlansFit(plan: Plan, config: Config, hotkeysConflict: bool, switchLayout: bool)
    requires Validate(config, hotkeysConflict).None?
    ensures var total := PlanSchedule(plan, config, switchLayout);
            var timeout := TransactionTimeout(plan, config, switchLayout);
            if |plan.buffer| <= MAX_KEYSTROKES && plan.extraBackspaces <= MAX_EXTRA_BACKSPACES
            then && total <= MAX_SCHEDULE_MS && timeout == Some(total + BACKEND_GRACE_MS)
                 && timeout.value <= MAX_TRANSACTION_MS
            else timeout.None?
  {
    if |plan.buffer| <= MAX_KEYSTROKES && plan.extraBackspaces <= MAX_EXTRA_BACKSPACES {
      EstimateExact(MAX_KEYSTROKES, MAX_EXTRA_BACKSPACES, config.layoutDelayMs, config.backspaceMs, config.typingMs,
                    true);
      EstimateExact(|plan.buffer|, plan.extraBackspaces, config.layoutDelayMs, config.backspaceMs, config.typingMs,
                    switchLayout);
      ScheduleMonotone(|plan.buffer|, plan.extraBackspaces,
                       config.layoutDelayMs, config.backspaceMs, config.typingMs, switchLayout,
                       MAX_KEYSTROKES, MAX_EXTRA_BACKSPACES,
                       config.layoutDelayMs, config.backspaceMs, config.typingMs, true);
    }
  }
}
