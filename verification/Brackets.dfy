/** The bracket check on source artifacts: which texts the stack loop lets through
    (Runtime/handlers/artifact_factory.py). */
module Brackets {
  import opened Results

  predicate Opens(c: char) {
    c == '{' || c == '[' || c == '('
  }

  predicate Closes(c: char) {
    c == '}' || c == ']' || c == ')'
  }

  function Closer(c: char): char
    requires Opens(c)
  {
    if c == '{' then '}' else if c == '[' then ']' else ')'
  }

  // ---- The loop ----

  /** The stack after one character; None is the ValueError. */
  function Step(stack: string, c: char): Option<string> {
    if Opens(c) then Some(stack + [Closer(c)])
    else if Closes(c) then
      if stack == "" || stack[|stack| - 1] != c then None else Some(stack[..|stack| - 1])
    else Some(stack)
  }

  function Scan(stack: string, text: string): Option<string>
    decreases |text|
  {
    if text == "" then Some(stack)
    else
      var next := Step(stack, text[0]);
      if next.None? then None else Scan(next.value, text[1..])
  }

  /** True where the source goes on to write the artifact, false where it raises. */
  method CheckBrackets(text: string) returns (ok: bool)
    ensures ok <==> Scan("", text).Some?
  {
    var stack: string := "";
    for i := 0 to |text|
      invariant Scan("", text) == Scan(stack, text[i..])
    {
      var c := text[i];
      assert text[i..][1..] == text[i + 1..];
      if Opens(c) {
        stack := stack + [Closer(c)];
      } else if Closes(c) {
        if stack == "" {
          return false;
        }
        var top := stack[|stack| - 1];
        stack := stack[..|stack| - 1];
        if top != c {
          return false;
        }
      }
    }
    ok := true;
  }

  // ---- Balanced texts, by derivation ----

  /** A derivation of a balanced text. */
  datatype Derivation = Empty | Plain(c: char, rest: Derivation) | Nest(open: char, inner: Derivation, rest: Derivation)

  predicate Proper(d: Derivation) {
    match d
    case Empty => true
    case Plain(c, rest) => !Opens(c) && !Closes(c) && Proper(rest)
    case Nest(open, inner, rest) => Opens(open) && Proper(inner) && Proper(rest)
  }

  function Text(d: Derivation): string
    requires Proper(d)
  {
    match d
    case Empty => ""
    case Plain(c, rest) => [c] + Text(rest)
    case Nest(open, inner, rest) => [open] + (Text(inner) + ([Closer(open)] + Text(rest)))
  }

  ghost predicate Balanced(text: string) {
    exists d :: Proper(d) && Text(d) == text
  }

  // ---- Balanced texts leave the stack as it was ----

  lemma {:induction false} ScanSplits(stack: string, a: string, b: string)
    ensures Scan(stack, a + b) == if Scan(stack, a).Some? then Scan(Scan(stack, a).value, b) else None
    decreases |a|
  {
    if a == "" {
      assert a + b == b;
    } else {
      assert (a + b)[1..] == a[1..] + b;
      var next := Step(stack, a[0]);
      if next.Some? { ScanSplits(next.value, a[1..], b); }
    }
  }

  lemma {:induction false} DerivedKeepsStack(d: Derivation, stack: string)
    requires Proper(d)
    ensures Scan(stack, Text(d)) == Some(stack)
  {
    match d
    case Empty =>
    case Plain(c, rest) =>
      assert Text(d)[1..] == Text(rest);
      DerivedKeepsStack(rest, stack);
    case Nest(open, inner, rest) =>
      var c := Closer(open);
      var tail := [c] + Text(rest);
      assert Text(d)[1..] == Text(inner) + tail;
      DerivedKeepsStack(inner, stack + [c]);
      ScanSplits(stack + [c], Text(inner), tail);
      assert tail[1..] == Text(rest);
      assert (stack + [c])[..|stack|] == stack;
      DerivedKeepsStack(rest, stack);
  }

  // ---- A text that empties the stack is a derivation between each two of its closers ----

  /** Derivations separated by the closers on a stack, top first. */
  function Assemble(ds: seq<Derivation>, stack: string): string
    requires |ds| == |stack| + 1 && forall i :: 0 <= i < |ds| ==> Proper(ds[i])
    decreases |stack|
  {
    if stack == "" then Text(ds[0])
    else Text(ds[0]) + ([stack[|stack| - 1]] + Assemble(ds[1..], stack[..|stack| - 1]))
  }

  lemma {:induction false} Derive(stack: string, text: string) returns (ds: seq<Derivation>)
    requires Scan(stack, text) == Some("")
    ensures |ds| == |stack| + 1 && forall i :: 0 <= i < |ds| ==> Proper(ds[i])
    ensures Assemble(ds, stack) == text
    decreases |text|
  {
    if text == "" {
      ds := [Empty];
    } else {
      var c, n := text[0], |stack| - 1;
      var below := Derive(Step(stack, c).value, text[1..]);
      if Opens(c) {
        ds := [Nest(c, below[0], below[1])] + below[2..];
        NestAssembled(stack, c, below, ds);
      } else if Closes(c) {
        ds := [Empty] + below;
        assert ds[1..] == below;
      } else {
        ds := [Plain(c, below[0])] + below[1..];
        PlainAssembled(stack, c, below, ds);
      }
      assert Assemble(ds, stack) == [c] + text[1..];
    }
  }

  lemma PlainAssembled(stack: string, c: char, below: seq<Derivation>, ds: seq<Derivation>)
    requires |below| == |stack| + 1 && forall i :: 0 <= i < |below| ==> Proper(below[i])
    requires !Opens(c) && !Closes(c) && ds == [Plain(c, below[0])] + below[1..]
    ensures |ds| == |stack| + 1 && forall i :: 0 <= i < |ds| ==> Proper(ds[i])
    ensures Assemble(ds, stack) == [c] + Assemble(below, stack)
  {
    assert ds[1..] == below[1..];
  }

  lemma NestAssembled(stack: string, c: char, below: seq<Derivation>, ds: seq<Derivation>)
    requires |below| == |stack| + 2 && forall i :: 0 <= i < |below| ==> Proper(below[i])
    requires Opens(c) && ds == [Nest(c, below[0], below[1])] + below[2..]
    ensures |ds| == |stack| + 1 && forall i :: 0 <= i < |ds| ==> Proper(ds[i])
    ensures Assemble(ds, stack) == [c] + Assemble(below, stack + [Closer(c)])
  {
    assert ds[1..] == below[1..][1..];
    assert (stack + [Closer(c)])[..|stack|] == stack;
    var inner, outer, closer := Text(below[0]), Text(below[1]), [Closer(c)];
    if stack != "" {
      var rest := [stack[|stack| - 1]] + Assemble(ds[1..], stack[..|stack| - 1]);
      assert [c] + (inner + (closer + outer)) + rest == [c] + (inner + (closer + (outer + rest)));
    }
  }

  /** The loop ends with an empty stack exactly on the balanced texts. */
  lemma EmptyStackExactlyWhenBalanced(text: string)
    ensures Scan("", text) == Some("") <==> Balanced(text)
  {
    if Scan("", text) == Some("") {
      var ds := Derive("", text);
      assert Proper(ds[0]) && Text(ds[0]) == text;
    }
    if Balanced(text) {
      var d :| Proper(d) && Text(d) == text;
      DerivedKeepsStack(d, "");
    }
  }

  // ---- What is accepted ----

  /** The stack from the top down: what is missing at the end. */
  function Missing(stack: string): string {
    if stack == "" then "" else [stack[|stack| - 1]] + Missing(stack[..|stack| - 1])
  }

  ghost predicate AllClosers(stack: string) {
    forall c :: c in stack ==> Closes(c)
  }

  lemma {:induction false} StackHoldsClosers(stack: string, text: string)
    requires AllClosers(stack) && Scan(stack, text).Some?
    ensures AllClosers(Scan(stack, text).value)
    decreases |text|
  {
    if text != "" { StackHoldsClosers(Step(stack, text[0]).value, text[1..]); }
  }

  lemma {:induction false} MissingEmpties(stack: string)
    requires AllClosers(stack)
    ensures Scan(stack, Missing(stack)) == Some("") && |Missing(stack)| == |stack|
  {
    if stack != "" {
      assert stack[|stack| - 1] in stack;
      assert Missing(stack)[1..] == Missing(stack[..|stack| - 1]);
      MissingEmpties(stack[..|stack| - 1]);
    }
  }

  /** The check lets a text through exactly when something can be appended that balances it: it accepts the prefixes of
      balanced texts, closed or not. */
  lemma AcceptsExactlyThePrefixes(text: string)
    ensures Scan("", text).Some? <==> exists suffix :: Balanced(text + suffix)
  {
    if Scan("", text).Some? {
      var stack := Scan("", text).value;
      StackHoldsClosers("", text);
      MissingEmpties(stack);
      ScanSplits("", text, Missing(stack));
      EmptyStackExactlyWhenBalanced(text + Missing(stack));
    }
    if suffix :| Balanced(text + suffix) {
      EmptyStackExactlyWhenBalanced(text + suffix);
      ScanSplits("", text, suffix);
    }
  }

  /** An opening bracket that is never closed passes. */
  lemma OpenBracketIsAccepted()
    ensures Scan("", "(").Some? && !Balanced("(")
  {
    assert "("[1..] == "" && Step("", '(') == Some("" + [Closer('(')]);
    assert Scan("", "(") == Scan("" + [Closer('(')], "");
    EmptyStackExactlyWhenBalanced("(");
  }

  lemma {:induction false} EachCharacterPopsOne(stack: string, text: string)
    requires Scan(stack, text) == Some("")
    ensures |text| >= |stack|
    decreases |text|
  {
    if text != "" { EachCharacterPopsOne(Step(stack, text[0]).value, text[1..]); }
  }

  /** The closers left on the stack are a completion, and no completion is shorter. */
  lemma StackIsTheShortestCompletion(text: string, suffix: string)
    requires Scan("", text).Some?
    ensures Balanced(text + Missing(Scan("", text).value))
    ensures Balanced(text + suffix) ==> |suffix| >= |Missing(Scan("", text).value)|
  {
    var stack := Scan("", text).value;
    StackHoldsClosers("", text);
    MissingEmpties(stack);
    ScanSplits("", text, Missing(stack));
    EmptyStackExactlyWhenBalanced(text + Missing(stack));
    if Balanced(text + suffix) {
      EmptyStackExactlyWhenBalanced(text + suffix);
      ScanSplits("", text, suffix);
      EachCharacterPopsOne(stack, suffix);
    }
  }

  lemma ScanOne(stack: string, c: char)
    ensures Scan(stack, [c]) == Step(stack, c)
  {
    assert [c][1..] == "";
  }

  lemma PairsSpelledOut(a: char, b: char)
    ensures [a, b] in {"{}", "[]", "()"} <==>
            (a == '{' && b == '}') || (a == '[' && b == ']') || (a == '(' && b == ')')
  {
    assert [a, b][0] == a && [a, b][1] == b;
  }

  /** A text of one character is balanced when it is no bracket, and one of two when neither is or they are a pair of
      the same kind. */
  lemma ShortTextsBalance(a: char, b: char)
    ensures Balanced([a]) <==> a !in "{}[]()"
    ensures Balanced([a, b]) <==> (a !in "{}[]()" && b !in "{}[]()") || [a, b] in {"{}", "[]", "()"}
  {
    EmptyStackExactlyWhenBalanced([a]);
    EmptyStackExactlyWhenBalanced([a, b]);
    ScanOne("", a);
    if Step("", a).Some? { ScanOne(Step("", a).value, b); }
    assert [a, b][1..] == [b];
    PairsSpelledOut(a, b);
  }
}
