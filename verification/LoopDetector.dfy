/** The loop detector over whole trajectories (Runtime/eval_harness.py). The Shannon entropy of the tool names is an
    uninterpreted function of them. */
module LoopDetector {
  import opened Results
  import opened Hashing

  datatype ToolCallAttempt = ToolCallAttempt(toolName: string, arguments: string)

  datatype Limits = Limits(maxIdenticalRepeats: int, maxOscillationCycles: int, maxSteps: int, entropyThreshold: real)

  /** The limits for which the windows of the source are the last calls of the history and long enough to compare. */
  predicate Sensible(limits: Limits) {
    limits.maxIdenticalRepeats >= 1 && limits.maxOscillationCycles >= 2
  }

  type Entropy = seq<string> -> real

  datatype Report =
    | StepBudgetExceeded(total: nat)
    | ConsecutiveRepeatLoop(toolName: string)
    | OscillationCycleLoop(names: seq<string>)
    | EntropyCollapseLoop(entropy: real)

  /** What a call of the detector does: answer None, answer a description, or raise an IndexError. */
  datatype Inspection = Silent | Reported(report: Report) | IndexError

  function CallText(a: ToolCallAttempt): string {
    a.toolName + "::" + a.arguments
  }

  function Signatures(hash: HashFunction, history: seq<ToolCallAttempt>): (sigs: seq<string>)
    ensures |sigs| == |history| && forall i :: 0 <= i < |history| ==> sigs[i] == hash(CallText(history[i]))
  {
    seq(|history|, i requires 0 <= i < |history| => hash(CallText(history[i])))
  }

  function Names(history: seq<ToolCallAttempt>): (names: seq<string>)
    ensures |names| == |history| && forall i :: 0 <= i < |history| ==> names[i] == history[i].toolName
  {
    seq(|history|, i requires 0 <= i < |history| => history[i].toolName)
  }

  // ---- What the source compares ----

  /** The slice `sigs[-k:]`: the last k for a positive k, everything for 0, all but the first -k for a negative one. */
  function Tail(sigs: seq<string>, k: int): (r: seq<string>)
    ensures |r| <= |sigs|
    ensures 1 <= k <= |sigs| ==> r == sigs[|sigs| - k..]
  {
    if k > 0 then (if k <= |sigs| then sigs[|sigs| - k..] else sigs)
    else if -k <= |sigs| then sigs[-k..]
    else []
  }

  /** `len(set(s)) == 1`. */
  predicate AllSame(s: seq<string>) {
    s != [] && forall j :: 0 <= j < |s| ==> s[j] == s[0]
  }

  predicate Repeats(k: int, sigs: seq<string>) {
    |sigs| >= k && AllSame(Tail(sigs, k))
  }

  /** The comparison for A B A B on a window; None is an index past its end. */
  function Alternation(sub: seq<string>): Option<bool> {
    if |sub| < 3 then None
    else if sub[0] != sub[2] then Some(false)
    else if |sub| < 4 then None
    else Some(sub[1] == sub[3] && sub[0] != sub[1])
  }

  /** The comparison for A B C A B C on a window; None is an index past its end. */
  function Rotation(sub: seq<string>): Option<bool> {
    if |sub| < 4 then None
    else if sub[0] != sub[3] then Some(false)
    else if |sub| < 5 then None
    else if sub[1] != sub[4] then Some(false)
    else if |sub| < 6 then None
    else Some(sub[2] == sub[5] && sub[0] != sub[1] && sub[0] != sub[2] && sub[1] != sub[2])
  }

  function Alternates(cycles: int, sigs: seq<string>): (r: Option<bool>)
    ensures r == Some(true) ==> |sigs| >= 2
  {
    if |sigs| < 2 * cycles then Some(false) else Alternation(Tail(sigs, 2 * cycles))
  }

  function Rotates(cycles: int, sigs: seq<string>): (r: Option<bool>)
    ensures r == Some(true) ==> |sigs| >= 3
  {
    if |sigs| < 3 * cycles then Some(false) else Rotation(Tail(sigs, 3 * cycles))
  }

  function Distinct(names: seq<string>): set<string> {
    set name | name in names
  }

  predicate Collapses(entropy: Entropy, names: seq<string>, threshold: real) {
    |names| >= 6 && entropy(names) < threshold && |Distinct(names)| <= 2
  }

  /** What the inspection of the last call of a history does. */
  function Inspect(limits: Limits, hash: HashFunction, entropy: Entropy, history: seq<ToolCallAttempt>): Inspection
    requires history != []
  {
    var n, sigs, names := |history|, Signatures(hash, history), Names(history);
    if n > limits.maxSteps then Reported(StepBudgetExceeded(n))
    else if Repeats(limits.maxIdenticalRepeats, sigs) then Reported(ConsecutiveRepeatLoop(history[n - 1].toolName))
    else
      var alternates := Alternates(limits.maxOscillationCycles, sigs);
      if alternates.None? then IndexError
      else if alternates.value then Reported(OscillationCycleLoop(names[n - 2..]))
      else
        var rotates := Rotates(limits.maxOscillationCycles, sigs);
        if rotates.None? then IndexError
        else if rotates.value then Reported(OscillationCycleLoop(names[n - 3..]))
        else if Collapses(entropy, names, limits.entropyThreshold) then Reported(EntropyCollapseLoop(entropy(names)))
        else Silent
  }

  class LoopDetector {
    const limits: Limits
    const hash: HashFunction
    const entropy: Entropy
    var history: seq<ToolCallAttempt>

    constructor (limits: Limits, hash: HashFunction, entropy: Entropy)
      ensures history == [] && this.limits == limits && this.hash == hash && this.entropy == entropy
    {
      this.limits, this.hash, this.entropy := limits, hash, entropy;
      this.history := [];
    }

    method Reset()
      modifies this
      ensures history == []
    {
      history := [];
    }

    method CheckRepeat(sigs: seq<string>) returns (found: bool)
      ensures found <==> Repeats(limits.maxIdenticalRepeats, sigs)
    {
      if |sigs| < limits.maxIdenticalRepeats {
        return false;
      }
      var recent := Tail(sigs, limits.maxIdenticalRepeats);
      found := recent != [] && forall j :: 0 <= j < |recent| ==> recent[j] == recent[0];
    }

    method CheckAlternation(sigs: seq<string>) returns (found: Option<bool>)
      ensures found == Alternates(limits.maxOscillationCycles, sigs)
    {
      var needed := 2 * limits.maxOscillationCycles;
      if |sigs| < needed {
        return Some(false);
      }
      found := Alternation(Tail(sigs, needed));
    }

    method CheckRotation(sigs: seq<string>) returns (found: Option<bool>)
      ensures found == Rotates(limits.maxOscillationCycles, sigs)
    {
      var needed := 3 * limits.maxOscillationCycles;
      if |sigs| < needed {
        return Some(false);
      }
      found := Rotation(Tail(sigs, needed));
    }

    /** The first rule that applies to a history. */
    method Check(calls: seq<ToolCallAttempt>) returns (answer: Inspection)
      requires calls != []
      ensures answer == Inspect(limits, hash, entropy, calls)
    {
      var total := |calls|;
      if total > limits.maxSteps {
        return Reported(StepBudgetExceeded(total));
      }
      var sigs, names := Signatures(hash, calls), Names(calls);
      var repeats := CheckRepeat(sigs);
      if repeats {
        return Reported(ConsecutiveRepeatLoop(calls[total - 1].toolName));
      }
      var alternates := CheckAlternation(sigs);
      if alternates.None? {
        return IndexError;
      }
      if alternates.value {
        return Reported(OscillationCycleLoop(names[total - 2..]));
      }
      var rotates := CheckRotation(sigs);
      if rotates.None? {
        return IndexError;
      }
      if rotates.value {
        return Reported(OscillationCycleLoop(names[total - 3..]));
      }
      if total >= 6 && entropy(names) < limits.entropyThreshold && |Distinct(names)| <= 2 {
        return Reported(EntropyCollapseLoop(entropy(names)));
      }
      answer := Silent;
    }

    /** The call joins the history even when the inspection raises. */
    method InspectStep(attempt: ToolCallAttempt) returns (answer: Inspection)
      modifies this
      ensures history == old(history) + [attempt]
      ensures answer == Inspect(limits, hash, entropy, history)
    {
      history := history + [attempt];
      answer := Check(history);
    }
  }

  // ---- Patterns ----

  /** n equal signatures from i on. */
  predicate RepeatsAt(sigs: seq<string>, i: nat, n: nat)
    requires i + n <= |sigs|
  {
    forall j :: i <= j < i + n ==> sigs[j] == sigs[i]
  }

  /** A B A B from i on. */
  predicate AlternatesAt(sigs: seq<string>, i: nat)
    requires i + 4 <= |sigs|
  {
    sigs[i] == sigs[i + 2] && sigs[i + 1] == sigs[i + 3] && sigs[i] != sigs[i + 1]
  }

  /** A B C A B C from i on. */
  predicate RotatesAt(sigs: seq<string>, i: nat)
    requires i + 6 <= |sigs|
  {
    sigs[i] == sigs[i + 3] && sigs[i + 1] == sigs[i + 4] && sigs[i + 2] == sigs[i + 5] &&
    sigs[i] != sigs[i + 1] && sigs[i] != sigs[i + 2] && sigs[i + 1] != sigs[i + 2]
  }

  predicate RepeatsAtEnd(limits: Limits, sigs: seq<string>)
    requires Sensible(limits)
  {
    |sigs| >= limits.maxIdenticalRepeats &&
    RepeatsAt(sigs, |sigs| - limits.maxIdenticalRepeats, limits.maxIdenticalRepeats)
  }

  /** The window is two calls a cycle long; its first four are compared. */
  predicate AlternatesAtEnd(limits: Limits, sigs: seq<string>)
    requires Sensible(limits)
  {
    |sigs| >= 2 * limits.maxOscillationCycles && AlternatesAt(sigs, |sigs| - 2 * limits.maxOscillationCycles)
  }

  /** The window is three calls a cycle long; its first six are compared. */
  predicate RotatesAtEnd(limits: Limits, sigs: seq<string>)
    requires Sensible(limits)
  {
    |sigs| >= 3 * limits.maxOscillationCycles && RotatesAt(sigs, |sigs| - 3 * limits.maxOscillationCycles)
  }

  /** Under sensible limits nothing raises, and silence means that no pattern ends with this call. */
  lemma SensibleInspection(limits: Limits, hash: HashFunction, entropy: Entropy, history: seq<ToolCallAttempt>)
    requires Sensible(limits) && history != []
    ensures !Inspect(limits, hash, entropy, history).IndexError?
    ensures Inspect(limits, hash, entropy, history).Silent? <==>
            |history| <= limits.maxSteps && !RepeatsAtEnd(limits, Signatures(hash, history)) &&
            !AlternatesAtEnd(limits, Signatures(hash, history)) && !RotatesAtEnd(limits, Signatures(hash, history)) &&
            !Collapses(entropy, Names(history), limits.entropyThreshold)
  {
    var sigs := Signatures(hash, history);
    RepeatsOnSensible(limits, sigs);
    AlternatesOnSensible(limits, sigs);
    RotatesOnSensible(limits, sigs);
  }

  lemma RepeatsOnSensible(limits: Limits, sigs: seq<string>)
    requires Sensible(limits)
    ensures Repeats(limits.maxIdenticalRepeats, sigs) <==> RepeatsAtEnd(limits, sigs)
  {
    var k := limits.maxIdenticalRepeats;
    if |sigs| >= k {
      var recent := Tail(sigs, k);
      assert forall j :: 0 <= j < k ==> recent[j] == sigs[|sigs| - k + j];
      assert forall j :: |sigs| - k <= j < |sigs| ==> sigs[j] == recent[j - (|sigs| - k)];
    }
  }

  lemma AlternatesOnSensible(limits: Limits, sigs: seq<string>)
    requires Sensible(limits)
    ensures Alternates(limits.maxOscillationCycles, sigs) == Some(AlternatesAtEnd(limits, sigs))
  {
  }

  lemma RotatesOnSensible(limits: Limits, sigs: seq<string>)
    requires Sensible(limits)
    ensures Rotates(limits.maxOscillationCycles, sigs) == Some(RotatesAtEnd(limits, sigs))
  {
  }

  // ---- Whole trajectories ----

  /** Every call since the last reset returned None. */
  ghost predicate Quiet(limits: Limits, hash: HashFunction, entropy: Entropy, history: seq<ToolCallAttempt>) {
    forall k :: 0 < k <= |history| ==> Inspect(limits, hash, entropy, history[..k]).Silent?
  }

  ghost predicate NoRepeat(sigs: seq<string>, n: nat) {
    forall i: nat :: i + n <= |sigs| ==> !RepeatsAt(sigs, i, n)
  }

  /** No alternation that leaves room for the whole window. */
  ghost predicate NoAlternation(sigs: seq<string>, window: nat)
    requires window >= 4
  {
    forall i: nat :: i + window <= |sigs| ==> !AlternatesAt(sigs, i)
  }

  ghost predicate NoRotation(sigs: seq<string>, window: nat)
    requires window >= 6
  {
    forall i: nat :: i + window <= |sigs| ==> !RotatesAt(sigs, i)
  }

  ghost predicate NeverCollapses(entropy: Entropy, names: seq<string>, threshold: real) {
    forall k :: 0 < k <= |names| ==> !Collapses(entropy, names[..k], threshold)
  }

  ghost predicate NoPattern(limits: Limits, sigs: seq<string>)
    requires Sensible(limits)
  {
    NoRepeat(sigs, limits.maxIdenticalRepeats) &&
    NoAlternation(sigs, 2 * limits.maxOscillationCycles) &&
    NoRotation(sigs, 3 * limits.maxOscillationCycles)
  }

  ghost predicate Clean(limits: Limits, hash: HashFunction, entropy: Entropy, history: seq<ToolCallAttempt>)
    requires Sensible(limits)
  {
    (history != [] ==> |history| <= limits.maxSteps) &&
    NoPattern(limits, Signatures(hash, history)) &&
    NeverCollapses(entropy, Names(history), limits.entropyThreshold)
  }

  lemma PrefixViews(hash: HashFunction, history: seq<ToolCallAttempt>, k: nat)
    requires k <= |history|
    ensures Signatures(hash, history[..k]) == Signatures(hash, history)[..k]
    ensures Names(history[..k]) == Names(history)[..k]
  {
  }

  lemma LastWindow(sigs: seq<string>, n: nat)
    requires n >= 1 && sigs != []
    ensures NoRepeat(sigs, n) <==> NoRepeat(sigs[..|sigs| - 1], n) && (|sigs| >= n ==> !RepeatsAt(sigs, |sigs| - n, n))
  {
    var front := sigs[..|sigs| - 1];
    forall i: nat | i + n <= |front|
      ensures RepeatsAt(front, i, n) <==> RepeatsAt(sigs, i, n)
    {
    }
    if NoRepeat(front, n) && (|sigs| >= n ==> !RepeatsAt(sigs, |sigs| - n, n)) {
      forall i: nat | i + n <= |sigs| ensures !RepeatsAt(sigs, i, n) {
        if i + n <= |front| { assert !RepeatsAt(front, i, n); }
      }
    }
  }

  lemma LastAlternation(sigs: seq<string>, window: nat)
    requires window >= 4 && sigs != []
    ensures NoAlternation(sigs, window) <==>
            NoAlternation(sigs[..|sigs| - 1], window) && (|sigs| >= window ==> !AlternatesAt(sigs, |sigs| - window))
  {
    var front := sigs[..|sigs| - 1];
    forall i: nat | i + window <= |front|
      ensures AlternatesAt(front, i) <==> AlternatesAt(sigs, i)
    {
    }
    if NoAlternation(front, window) && (|sigs| >= window ==> !AlternatesAt(sigs, |sigs| - window)) {
      forall i: nat | i + window <= |sigs| ensures !AlternatesAt(sigs, i) {
        if i + window <= |front| { assert !AlternatesAt(front, i); }
      }
    }
  }

  lemma LastRotation(sigs: seq<string>, window: nat)
    requires window >= 6 && sigs != []
    ensures NoRotation(sigs, window) <==>
            NoRotation(sigs[..|sigs| - 1], window) && (|sigs| >= window ==> !RotatesAt(sigs, |sigs| - window))
  {
    var front := sigs[..|sigs| - 1];
    forall i: nat | i + window <= |front|
      ensures RotatesAt(front, i) <==> RotatesAt(sigs, i)
    {
    }
    if NoRotation(front, window) && (|sigs| >= window ==> !RotatesAt(sigs, |sigs| - window)) {
      forall i: nat | i + window <= |sigs| ensures !RotatesAt(sigs, i) {
        if i + window <= |front| { assert !RotatesAt(front, i); }
      }
    }
  }

  lemma LastCollapse(entropy: Entropy, names: seq<string>, threshold: real)
    requires names != []
    ensures NeverCollapses(entropy, names, threshold) <==>
            NeverCollapses(entropy, names[..|names| - 1], threshold) && !Collapses(entropy, names, threshold)
  {
    var n := |names|;
    var front := names[..n - 1];
    assert names[..n] == names;
    assert forall k :: 0 < k <= n - 1 ==> front[..k] == names[..k];
  }

  lemma NoPatternStep(limits: Limits, sigs: seq<string>)
    requires Sensible(limits) && sigs != []
    ensures NoPattern(limits, sigs) <==>
            NoPattern(limits, sigs[..|sigs| - 1]) &&
            !RepeatsAtEnd(limits, sigs) && !AlternatesAtEnd(limits, sigs) && !RotatesAtEnd(limits, sigs)
  {
    LastWindow(sigs, limits.maxIdenticalRepeats);
    LastAlternation(sigs, 2 * limits.maxOscillationCycles);
    LastRotation(sigs, 3 * limits.maxOscillationCycles);
  }

  lemma CleanStep(limits: Limits, hash: HashFunction, entropy: Entropy, history: seq<ToolCallAttempt>)
    requires Sensible(limits) && history != []
    ensures Clean(limits, hash, entropy, history) <==>
            Clean(limits, hash, entropy, history[..|history| - 1]) && Inspect(limits, hash, entropy, history).Silent?
  {
    PrefixViews(hash, history, |history| - 1);
    SensibleInspection(limits, hash, entropy, history);
    NoPatternStep(limits, Signatures(hash, history));
    LastCollapse(entropy, Names(history), limits.entropyThreshold);
  }

  lemma QuietStep(limits: Limits, hash: HashFunction, entropy: Entropy, history: seq<ToolCallAttempt>)
    requires Sensible(limits) && history != []
    ensures Quiet(limits, hash, entropy, history) <==>
            Quiet(limits, hash, entropy, history[..|history| - 1]) && Inspect(limits, hash, entropy, history).Silent?
  {
    var n := |history|;
    var front := history[..n - 1];
    assert history[..n] == history;
    assert forall k :: 0 < k <= n - 1 ==> front[..k] == history[..k];
  }

  /** Nothing is ever reported exactly when the trajectory is within the step budget and shows none of the patterns
      anywhere. */
  lemma {:induction false} QuietExactlyWhenClean(
      limits: Limits, hash: HashFunction, entropy: Entropy, history: seq<ToolCallAttempt>)
    requires Sensible(limits)
    ensures Quiet(limits, hash, entropy, history) <==> Clean(limits, hash, entropy, history)
  {
    if history != [] {
      QuietExactlyWhenClean(limits, hash, entropy, history[..|history| - 1]);
      QuietStep(limits, hash, entropy, history);
      CleanStep(limits, hash, entropy, history);
    }
  }

  function Least(a: nat, b: nat): nat {
    if a < b then a else b
  }

  /** How long the windows let a trajectory go on under limits that are not sensible. */
  function WindowBound(limits: Limits): nat
    requires !Sensible(limits)
  {
    if limits.maxOscillationCycles <= 0 then 0
    else if limits.maxOscillationCycles == 1 then (if limits.maxIdenticalRepeats in {0, 1} then 0 else 1)
    else -limits.maxIdenticalRepeats
  }

  /** The length of the longest quiet trajectory under such limits. */
  function QuietBound(limits: Limits): nat
    requires !Sensible(limits)
  {
    Least(WindowBound(limits), if limits.maxSteps < 0 then 0 else limits.maxSteps)
  }

  /** Limits that are not sensible stop every trajectory early, whatever its calls: below two cycles the comparison runs
      past its window, and a repeat limit of zero or less takes a single call for a repetition. */
  lemma OtherLimitsNeverStayQuiet(limits: Limits, hash: HashFunction, entropy: Entropy, history: seq<ToolCallAttempt>)
    requires !Sensible(limits) && |history| > QuietBound(limits)
    ensures !Quiet(limits, hash, entropy, history)
  {
    var k := QuietBound(limits) + 1;
    var sigs := Signatures(hash, history[..k]);
    assert |sigs| == k;
    if limits.maxOscillationCycles >= 2 && limits.maxSteps >= k {
      assert Tail(sigs, limits.maxIdenticalRepeats) == [sigs[k - 1]];
    }
    assert !Inspect(limits, hash, entropy, history[..k]).Silent?;
  }

  /** a, b, and then c again and again. */
  function TwoThenRepeat(a: ToolCallAttempt, b: ToolCallAttempt, c: ToolCallAttempt, n: nat)
    : (history: seq<ToolCallAttempt>)
    ensures |history| == n && forall i :: 0 <= i < n ==> history[i] == if i == 0 then a else if i == 1 then b else c
  {
    seq(n, i requires 0 <= i < n => if i == 0 then a else if i == 1 then b else c)
  }

  lemma ThreeNamesDoNotCollapse(entropy: Entropy, names: seq<string>, threshold: real)
    requires |names| >= 6 ==> names[0] != names[1] && names[0] != names[2] && names[1] != names[2]
    ensures !Collapses(entropy, names, threshold)
  {
    if |names| >= 6 {
      var three := {names[0], names[1], names[2]};
      assert three <= Distinct(names);
      assert |Distinct(names) - three| + |three| == |Distinct(names)|;
    }
  }

  /** Signatures of the form a, b, c, c, c, ... with c unlike the others. */
  predicate SettlesAtThird(sigs: seq<string>) {
    forall i :: 2 <= i < |sigs| ==> sigs[i] == sigs[2] && sigs[0] != sigs[2] && sigs[1] != sigs[2]
  }

  lemma SettledShowsNoCycle(sigs: seq<string>, cycles: int)
    requires SettlesAtThird(sigs) && (cycles >= 2 || (cycles == 1 && |sigs| == 1))
    ensures Alternates(cycles, sigs) == Some(false) && Rotates(cycles, sigs) == Some(false)
  {
    if |sigs| >= 2 * cycles {
      var sub := Tail(sigs, 2 * cycles);
      assert sub[0] == sigs[|sigs| - 2 * cycles] && sub[1] == sigs[|sigs| - 2 * cycles + 1];
      assert sub[2] == sigs[|sigs| - 2 * cycles + 2] && sub[3] == sigs[|sigs| - 2 * cycles + 3];
    }
    if |sigs| >= 3 * cycles {
      var sub := Tail(sigs, 3 * cycles);
      assert sub[0] == sigs[|sigs| - 3 * cycles] && sub[2] == sigs[|sigs| - 3 * cycles + 2];
      assert sub[3] == sigs[|sigs| - 3 * cycles + 3];
    }
  }

  /** The bound is met: with three different calls, whatever the limits, the hash and the entropy. */
  lemma OtherLimitsBoundIsMet(
      limits: Limits, hash: HashFunction, entropy: Entropy, a: ToolCallAttempt, b: ToolCallAttempt, c: ToolCallAttempt)
    requires !Sensible(limits)
    requires a.toolName != b.toolName && a.toolName != c.toolName && b.toolName != c.toolName
    requires hash(CallText(a)) != hash(CallText(c)) && hash(CallText(b)) != hash(CallText(c))
    ensures Quiet(limits, hash, entropy, TwoThenRepeat(a, b, c, QuietBound(limits)))
  {
    var history := TwoThenRepeat(a, b, c, QuietBound(limits));
    forall k | 0 < k <= |history|
      ensures Inspect(limits, hash, entropy, history[..k]).Silent?
    {
      var sigs, names := Signatures(hash, history[..k]), Names(history[..k]);
      ThreeNamesDoNotCollapse(entropy, names, limits.entropyThreshold);
      SettledShowsNoCycle(sigs, limits.maxOscillationCycles);
      assert !Repeats(limits.maxIdenticalRepeats, sigs);
    }
  }

  // ---- Periodic trajectories ----

  /** From `start` on the calls repeat with the period, for the given number of steps, and differ within it. */
  ghost predicate RepeatsFrom(history: seq<ToolCallAttempt>, start: nat, period: nat, steps: nat) {
    start + steps <= |history| &&
    (forall i :: start <= i && i + period < start + steps ==> CallText(history[i + period]) == CallText(history[i])) &&
    (forall i, j :: start <= i < j < start + period && j < start + steps ==>
      CallText(history[i]) != CallText(history[j]))
  }

  function TextsOf(history: seq<ToolCallAttempt>): set<string> {
    set i | 0 <= i < |history| :: CallText(history[i])
  }

  /** How far into a repetition of period one, two or three the report comes at the latest. */
  function Patience(limits: Limits, period: nat): nat
    requires Sensible(limits)
  {
    if period == 1 then limits.maxIdenticalRepeats
    else if period == 2 then 2 * limits.maxOscillationCycles
    else 3 * limits.maxOscillationCycles
  }

  lemma {:induction false} EqualFrom(history: seq<ToolCallAttempt>, start: nat, steps: nat, i: nat)
    requires RepeatsFrom(history, start, 1, steps) && start <= i < start + steps
    ensures CallText(history[i]) == CallText(history[start])
  {
    if i > start {
      EqualFrom(history, start, steps, i - 1);
      assert CallText(history[i - 1 + 1]) == CallText(history[i - 1]);
    }
  }

  lemma DifferentSignatures(hash: HashFunction, history: seq<ToolCallAttempt>, i: nat, j: nat)
    requires CollisionFree(hash, TextsOf(history)) && i < |history| && j < |history|
    requires CallText(history[i]) != CallText(history[j])
    ensures Signatures(hash, history)[i] != Signatures(hash, history)[j]
  {
    assert CallText(history[i]) in TextsOf(history) && CallText(history[j]) in TextsOf(history);
  }

  lemma ShowsRepeat(limits: Limits, hash: HashFunction, history: seq<ToolCallAttempt>, start: nat)
    requires Sensible(limits) && RepeatsFrom(history, start, 1, limits.maxIdenticalRepeats)
    ensures !NoRepeat(Signatures(hash, history[..start + limits.maxIdenticalRepeats]), limits.maxIdenticalRepeats)
  {
    var r := limits.maxIdenticalRepeats;
    var sigs := Signatures(hash, history[..start + r]);
    forall j | start <= j < start + r ensures sigs[j] == sigs[start] {
      EqualFrom(history, start, r, j);
    }
    assert RepeatsAt(sigs, start, r);
  }

  lemma ShowsAlternation(limits: Limits, hash: HashFunction, history: seq<ToolCallAttempt>, start: nat)
    requires Sensible(limits) && CollisionFree(hash, TextsOf(history))
    requires RepeatsFrom(history, start, 2, 2 * limits.maxOscillationCycles)
    ensures !NoAlternation(Signatures(hash, history[..start + 2 * limits.maxOscillationCycles]),
            2 * limits.maxOscillationCycles)
  {
    var sigs := Signatures(hash, history[..start + 2 * limits.maxOscillationCycles]);
    DifferentSignatures(hash, history, start, start + 1);
    assert CallText(history[start + 1 + 2]) == CallText(history[start + 1]);
    assert AlternatesAt(sigs, start);
  }

  lemma ShowsRotation(limits: Limits, hash: HashFunction, history: seq<ToolCallAttempt>, start: nat)
    requires Sensible(limits) && CollisionFree(hash, TextsOf(history))
    requires RepeatsFrom(history, start, 3, 3 * limits.maxOscillationCycles)
    ensures !NoRotation(Signatures(hash, history[..start + 3 * limits.maxOscillationCycles]),
            3 * limits.maxOscillationCycles)
  {
    var sigs := Signatures(hash, history[..start + 3 * limits.maxOscillationCycles]);
    DifferentSignatures(hash, history, start, start + 1);
    DifferentSignatures(hash, history, start, start + 2);
    DifferentSignatures(hash, history, start + 1, start + 2);
    assert CallText(history[start + 1 + 3]) == CallText(history[start + 1]);
    assert CallText(history[start + 2 + 3]) == CallText(history[start + 2]);
    assert RotatesAt(sigs, start);
  }

  lemma NotQuiet(limits: Limits, hash: HashFunction, entropy: Entropy, history: seq<ToolCallAttempt>)
    requires Sensible(limits) && !NoPattern(limits, Signatures(hash, history))
    ensures exists k :: 0 < k <= |history| && Inspect(limits, hash, entropy, history[..k]).Reported?
  {
    QuietExactlyWhenClean(limits, hash, entropy, history);
    var k :| 0 < k <= |history| && !Inspect(limits, hash, entropy, history[..k]).Silent?;
    SensibleInspection(limits, hash, entropy, history[..k]);
  }

  lemma ShowsPattern(limits: Limits, hash: HashFunction, history: seq<ToolCallAttempt>, start: nat, period: nat)
    requires Sensible(limits) && 1 <= period <= 3 && CollisionFree(hash, TextsOf(history))
    requires RepeatsFrom(history, start, period, Patience(limits, period))
    ensures !NoPattern(limits, Signatures(hash, history[..start + Patience(limits, period)]))
  {
    if period == 1 {
      ShowsRepeat(limits, hash, history, start);
    } else if period == 2 {
      ShowsAlternation(limits, hash, history, start);
    } else {
      ShowsRotation(limits, hash, history, start);
    }
  }

  /** A trajectory that starts to repeat with period one, two or three, different calls within the period, is reported
      within its patience: with three repeats and two cycles that is three, four or six steps into the repetition. */
  lemma RepetitionIsReported(
      limits: Limits, hash: HashFunction, entropy: Entropy, history: seq<ToolCallAttempt>, start: nat, period: nat)
    requires Sensible(limits) && 1 <= period <= 3 && CollisionFree(hash, TextsOf(history))
    requires RepeatsFrom(history, start, period, Patience(limits, period))
    ensures exists k :: 0 < k <= start + Patience(limits, period) &&
                        Inspect(limits, hash, entropy, history[..k]).Reported?
  {
    var n := start + Patience(limits, period);
    ShowsPattern(limits, hash, history, start, period);
    NotQuiet(limits, hash, entropy, history[..n]);
    var k :| 0 < k <= n && Inspect(limits, hash, entropy, history[..n][..k]).Reported?;
    assert history[..n][..k] == history[..k];
  }

  // ---- What escapes ----

  /** A A B A A B A A B ... */
  function PairThenOther(a: ToolCallAttempt, b: ToolCallAttempt, n: nat): (history: seq<ToolCallAttempt>)
    ensures |history| == n && forall i :: 0 <= i < n ==> history[i] == if i % 3 == 2 then b else a
  {
    seq(n, i requires 0 <= i < n => if i % 3 == 2 then b else a)
  }

  /** A cycle of three with a repeated call in it is never reported, up to the step budget, as long as the entropy of
      the names stays up. */
  lemma RepeatedPairEscapes(
      limits: Limits, hash: HashFunction, entropy: Entropy, a: ToolCallAttempt, b: ToolCallAttempt, n: nat)
    requires Sensible(limits) && limits.maxIdenticalRepeats >= 3 && n <= limits.maxSteps
    requires hash(CallText(a)) != hash(CallText(b))
    requires NeverCollapses(entropy, Names(PairThenOther(a, b, n)), limits.entropyThreshold)
    ensures Quiet(limits, hash, entropy, PairThenOther(a, b, n))
  {
    var history := PairThenOther(a, b, n);
    var sigs := Signatures(hash, history);
    forall i: nat | i + limits.maxIdenticalRepeats <= n
      ensures !RepeatsAt(sigs, i, limits.maxIdenticalRepeats)
    {
      assert sigs[i] != sigs[i + 1] || sigs[i] != sigs[i + 2];
    }
    forall i: nat | i + 2 * limits.maxOscillationCycles <= n ensures !AlternatesAt(sigs, i) {
    }
    forall i: nat | i + 3 * limits.maxOscillationCycles <= n ensures !RotatesAt(sigs, i) {
    }
    QuietExactlyWhenClean(limits, hash, entropy, history);
  }
}
