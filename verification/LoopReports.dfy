/** Which rule of the loop detector speaks, and what it names (Runtime/eval_harness.py). */
module LoopReports {
  import opened Results
  import opened Text
  import opened Hashing
  import opened LoopDetector

  /** The answer of the first rule that applies: the step count, the tool called last, the last two or three tools, or
      the entropy. */
  ghost predicate FirstRule(answer: Inspection, names: seq<string>, e: real,
                            over: bool, repeats: bool, alternates: bool, rotates: bool, collapses: bool)
  {
    var n := |names|;
    if over then answer == Reported(StepBudgetExceeded(n))
    else if repeats then n >= 1 && answer == Reported(ConsecutiveRepeatLoop(names[n - 1]))
    else if alternates then n >= 2 && answer == Reported(OscillationCycleLoop([names[n - 2], names[n - 1]]))
    else if rotates then
      n >= 3 && answer == Reported(OscillationCycleLoop([names[n - 3], names[n - 2], names[n - 1]]))
    else if collapses then answer == Reported(EntropyCollapseLoop(e))
    else answer == Silent
  }

  lemma LastTwo(s: seq<string>)
    requires |s| >= 2
    ensures s[|s| - 2..] == [s[|s| - 2], s[|s| - 1]]
  {
  }

  lemma LastThree(s: seq<string>)
    requires |s| >= 3
    ensures s[|s| - 3..] == [s[|s| - 3], s[|s| - 2], s[|s| - 1]]
  {
  }

  lemma InspectByRules(limits: Limits, hash: HashFunction, entropy: Entropy, history: seq<ToolCallAttempt>,
                       repeats: bool, alternates: bool, rotates: bool)
    requires history != [] && repeats == Repeats(limits.maxIdenticalRepeats, Signatures(hash, history))
    requires Alternates(limits.maxOscillationCycles, Signatures(hash, history)) == Some(alternates)
    requires Rotates(limits.maxOscillationCycles, Signatures(hash, history)) == Some(rotates)
    ensures FirstRule(Inspect(limits, hash, entropy, history), Names(history), entropy(Names(history)),
                      |history| > limits.maxSteps, repeats, alternates, rotates,
                      Collapses(entropy, Names(history), limits.entropyThreshold))
  {
    if |history| > limits.maxSteps {
    } else if repeats {
    } else if alternates {
      LastTwo(Names(history));
    } else if rotates {
      LastThree(Names(history));
    }
  }

  /** Under sensible limits the rules are tried in order, and the report names the tools called last. */
  lemma ReportNamesLastTools(limits: Limits, hash: HashFunction, entropy: Entropy, history: seq<ToolCallAttempt>)
    requires Sensible(limits) && history != []
    ensures FirstRule(Inspect(limits, hash, entropy, history), Names(history), entropy(Names(history)),
                      |history| > limits.maxSteps, RepeatsAtEnd(limits, Signatures(hash, history)),
                      AlternatesAtEnd(limits, Signatures(hash, history)),
                      RotatesAtEnd(limits, Signatures(hash, history)),
                      Collapses(entropy, Names(history), limits.entropyThreshold))
  {
    var sigs := Signatures(hash, history);
    RepeatsOnSensible(limits, sigs);
    AlternatesOnSensible(limits, sigs);
    RotatesOnSensible(limits, sigs);
    InspectByRules(limits, hash, entropy, history,
      RepeatsAtEnd(limits, sigs), AlternatesAtEnd(limits, sigs), RotatesAtEnd(limits, sigs));
  }

  // ---- What counts as the same call, and as a collapse ----

  /** All the tools called are among these two. */
  predicate Only(names: seq<string>, a: string, b: string) {
    forall i :: 0 <= i < |names| ==> names[i] == a || names[i] == b
  }

  lemma TwoNamesAtMost(names: seq<string>)
    ensures |Distinct(names)| <= 2 <==> exists a, b :: Only(names, a, b)
  {
    var all := Distinct(names);
    if names == [] {
      assert Only(names, "", "") && all == {};
    } else if |all| <= 2 {
      var a := names[0];
      assert a in all;
      if all == {a} {
        assert forall i :: 0 <= i < |names| ==> names[i] in all;
        assert Only(names, a, a);
      } else {
        var rest := all - {a};
        assert rest == {} ==> all == {a};
        var b :| b in rest;
        assert |rest - {b}| == 0;
        assert forall i :: 0 <= i < |names| ==> names[i] in all;
        assert all == {a, b} by {
          assert rest - {b} == {};
        }
        assert Only(names, a, b);
      }
    }
    if a, b :| Only(names, a, b) {
      assert all <= {a, b};
      SubsetIsSmaller(all, {a, b});
    }
  }

  lemma {:induction false} SubsetIsSmaller(small: set<string>, big: set<string>)
    requires small <= big
    ensures |small| <= |big|
  {
    if x :| x in small {
      SubsetIsSmaller(small - {x}, big - {x});
    }
  }

  /** The entropy rule speaks from the sixth call on, below its threshold, while no third tool was ever called. */
  lemma CollapsesExactly(entropy: Entropy, names: seq<string>, threshold: real)
    ensures Collapses(entropy, names, threshold) <==>
            |names| >= 6 && entropy(names) < threshold && exists a, b :: Only(names, a, b)
  {
    TwoNamesAtMost(names);
  }

  /** Calls are told apart by tool and arguments, whatever the arguments, as long as no tool name has a colon. */
  lemma CallTextDetermines(a: ToolCallAttempt, b: ToolCallAttempt)
    requires ':' !in a.toolName && ':' !in b.toolName
    ensures CallText(a) == CallText(b) <==> a == b
  {
    if CallText(a) == CallText(b) {
      assert CallText(a) == a.toolName + [':'] + (":" + a.arguments);
      assert CallText(b) == b.toolName + [':'] + (":" + b.arguments);
      FirstSeparatorSplits(a.toolName, ":" + a.arguments, b.toolName, ":" + b.arguments, ':');
      assert a.arguments == (":" + a.arguments)[1..] == (":" + b.arguments)[1..] == b.arguments;
    }
  }
}
