/**
 * The `rpn` application: evaluates its command-line arguments as a reverse
 * Polish expression over a fixed stack of 100 `long` values, with `+`, `-`
 * and decimal numbers, and returns the top of the stack as the exit code.
 */
module Rpn {
  import opened Common

  const StackSize: nat := 100

  const LongMin: int := -0x8000_0000_0000_0000
  const LongMax: int := 0x7fff_ffff_ffff_ffff

  /** Whitespace as `isspace` sees it in the C locale. */
  predicate IsSpace(c: char)
  {
    c == ' ' || c == '\t' || c == '\n' || c == '\U{0b}' || c == '\U{0c}' || c == '\r'
  }

  predicate IsDigit(c: char)
  {
    '0' <= c <= '9'
  }

  function SkipSpace(s: string): (r: string)
    ensures |r| <= |s| && (r == [] || !IsSpace(r[0]))
  {
    if s != [] && IsSpace(s[0]) then SkipSpace(s[1..]) else s
  }

  /** The longest prefix made of digits. */
  function LeadingDigits(s: string): (r: string)
    ensures |r| <= |s| && r == s[..|r|]
    ensures forall k :: 0 <= k < |r| ==> IsDigit(r[k])
    ensures |r| < |s| ==> !IsDigit(s[|r|])
  {
    if s != [] && IsDigit(s[0]) then [s[0]] + LeadingDigits(s[1..]) else []
  }

  /** The value of a string of decimal digits, most significant first. */
  function DigitsValue(s: string): nat
    requires forall k :: 0 <= k < |s| ==> IsDigit(s[k])
  {
    if s == [] then 0
    else
      assert IsDigit(s[|s| - 1]);
      DigitsValue(s[..|s| - 1]) * 10 + (s[|s| - 1] as int - '0' as int)
  }

  /** `strtol` saturates at the limits of `long`. */
  function ClampLong(v: int): (r: int)
    ensures LongMin <= r <= LongMax
    ensures LongMin <= v <= LongMax ==> r == v
  {
    if v < LongMin then LongMin else if v > LongMax then LongMax else v
  }

  /** `atol`: leading whitespace, an optional sign, then as many decimal
      digits as follow; no digits gives 0. */
  function Atol(s: string): (r: int)
    ensures LongMin <= r <= LongMax
  {
    var t := SkipSpace(s);
    var negative := t != [] && t[0] == '-';
    var rest := if t != [] && (t[0] == '-' || t[0] == '+') then t[1..] else t;
    var magnitude: int := DigitsValue(LeadingDigits(rest));
    var value := if negative then -magnitude else magnitude;
    ClampLong(value)
  }

  predicate IsOperator(tok: string)
  {
    tok == "+" || tok == "-"
  }

  /** The stack never underflows (an operator needs two values) and never
      overflows (a number needs a free slot). Reading or writing outside
      `stack` is undefined behaviour in the program. */
  predicate StaysInStack(tokens: seq<string>, depth: int)
  {
    tokens == [] ||
    if IsOperator(tokens[0]) then depth >= 2 && StaysInStack(tokens[1..], depth - 1)
    else depth < StackSize && StaysInStack(tokens[1..], depth + 1)
  }

  /** One token applied to a stack whose top is the last element. `long`
      arithmetic wraps in two's complement. */
  function Step(st: seq<int>, tok: string): (r: seq<int>)
    requires IsOperator(tok) ==> |st| >= 2
  {
    if tok == "+" then st[..|st| - 2] + [ToInt64(st[|st| - 2] + st[|st| - 1])]
    else if tok == "-" then st[..|st| - 2] + [ToInt64(st[|st| - 2] - st[|st| - 1])]
    else st + [Atol(tok)]
  }

  function Eval(tokens: seq<string>, st: seq<int>): (r: seq<int>)
    requires StaysInStack(tokens, |st|)
  {
    if tokens == [] then st else Eval(tokens[1..], Step(st, tokens[0]))
  }

  /** The arguments after the program name. */
  function Tokens(argv: seq<string>): seq<string>
  {
    if argv == [] then [] else argv[1..]
  }

  /** The exit code: 0 for an empty stack, else the top cast to `int`. */
  function Result(st: seq<int>): int
  {
    if st == [] then 0 else ToInt32(st[|st| - 1])
  }

  /** The globals `stack` and `stack_ptr`. */
  class Machine {
    const stack: array<int>
    var stackPtr: int

    ghost predicate Valid()
      reads this
    {
      stack.Length == StackSize && -1 <= stackPtr < StackSize
    }

    /** The values on the stack, bottom first. */
    ghost function Contents(): seq<int>
      reads this, stack
      requires Valid()
    {
      stack[..stackPtr + 1]
    }

    constructor ()
      ensures Valid() && Contents() == []
    {
      stack := new int[StackSize];
      stackPtr := -1;
    }

    method Push(value: int)
      requires Valid() && stackPtr + 1 < StackSize
      modifies this`stackPtr, stack
      ensures Valid() && stackPtr == old(stackPtr) + 1
      ensures Contents() == old(Contents()) + [value]
    {
      stackPtr := stackPtr + 1;
      stack[stackPtr] := value;
    }

    method Pop() returns (value: int)
      requires Valid() && stackPtr >= 0
      modifies this`stackPtr
      ensures Valid() && stackPtr == old(stackPtr) - 1
      ensures value == old(Contents())[|old(Contents())| - 1]
      ensures Contents() == old(Contents())[..|old(Contents())| - 1]
    {
      value := stack[stackPtr];
      stackPtr := stackPtr - 1;
    }

    /** `Push(v)` then `Pop()` gives back `v` and the same stack. */
    method PushThenPop(v: int) returns (r: int)
      requires Valid() && stackPtr + 1 < StackSize
      modifies this`stackPtr, stack
      ensures Valid() && r == v
      ensures stackPtr == old(stackPtr) && Contents() == old(Contents())
    {
      Push(v);
      r := Pop();
    }

    /** One pass of the loop in `main`: an operator pops `b`, then `a`, and
        pushes the result; anything else is pushed as a number. */
    method Apply(tok: string)
      requires Valid()
      requires IsOperator(tok) ==> stackPtr >= 1
      requires !IsOperator(tok) ==> stackPtr + 1 < StackSize
      modifies this`stackPtr, stack
      ensures Valid() && Contents() == Step(old(Contents()), tok)
    {
      if tok == "+" {
        var b := Pop();
        var a := Pop();
        Push(ToInt64(a + b));
      } else if tok == "-" {
        var b := Pop();
        var a := Pop();
        Push(ToInt64(a - b));
      } else {
        var a := Atol(tok);
        Push(a);
      }
    }

    /** `Apply` on the first of `tokens`: the rest still stays inside the
        stack and evaluates to the same final stack. */
    method ApplyFirst(ghost tokens: seq<string>, tok: string, ghost goal: seq<int>)
      requires Valid() && tokens != [] && tokens[0] == tok
      requires StaysInStack(tokens, |Contents()|) && Eval(tokens, Contents()) == goal
      modifies this`stackPtr, stack
      ensures Valid() && StaysInStack(tokens[1..], |Contents()|) && Eval(tokens[1..], Contents()) == goal
    {
      Apply(tok);
    }

    /** `main`: the stack starts empty, `argv[0]` is skipped and every other
        argument is one token. */
    method Run(argv: seq<string>) returns (r: int)
      requires Valid() && StaysInStack(Tokens(argv), 0)
      modifies this`stackPtr, stack
      ensures Valid()
      ensures r == Result(Eval(Tokens(argv), []))
    {
      stackPtr := -1;
      ghost var tokens := Tokens(argv);
      var i := 1;
      while i < |argv|
        invariant Valid() && 1 <= i && i - 1 <= |tokens|
        invariant StaysInStack(tokens[i - 1..], |Contents()|)
        invariant Eval(tokens[i - 1..], Contents()) == Eval(tokens, [])
      {
        assert tokens[i - 1..][0] == argv[i] && tokens[i - 1..][1..] == tokens[i..];
        ApplyFirst(tokens[i - 1..], argv[i], Eval(tokens, []));
        i := i + 1;
      }
      if stackPtr < 0 {
        return 0;
      }
      var top := Pop();
      return ToInt32(top);
    }
  }

  function NumberCount(tokens: seq<string>): nat
  {
    if tokens == [] then 0 else (if IsOperator(tokens[0]) then 0 else 1) + NumberCount(tokens[1..])
  }

  /** Every number raises the depth by one and every operator lowers it by
      one, so the final depth is the count of numbers minus the count of
      operators. */
  lemma {:induction false} EvalDepth(tokens: seq<string>, st: seq<int>)
    requires StaysInStack(tokens, |st|)
    ensures |Eval(tokens, st)| == |st| + NumberCount(tokens) - (|tokens| - NumberCount(tokens))
  {
    if tokens != [] {
      EvalDepth(tokens[1..], Step(st, tokens[0]));
    }
  }

  /** Operators only look at the top two values: what lies below them is
      left as it was. */
  lemma {:induction false} EvalKeepsBottom(tokens: seq<string>, bottom: seq<int>, st: seq<int>)
    requires StaysInStack(tokens, |st|) && StaysInStack(tokens, |bottom| + |st|)
    ensures Eval(tokens, bottom + st) == bottom + Eval(tokens, st)
  {
    if tokens != [] {
      StepKeepsBottom(tokens[0], bottom, st);
      EvalKeepsBottom(tokens[1..], bottom, Step(st, tokens[0]));
    }
  }

  lemma StepKeepsBottom(tok: string, bottom: seq<int>, st: seq<int>)
    requires IsOperator(tok) ==> |st| >= 2
    ensures Step(bottom + st, tok) == bottom + Step(st, tok)
  {
    if IsOperator(tok) {
      assert (bottom + st)[..|bottom + st| - 2] == bottom + st[..|st| - 2];
      assert (bottom + st)[|bottom + st| - 2] == st[|st| - 2];
      assert (bottom + st)[|bottom + st| - 1] == st[|st| - 1];
    }
  }

  /** A run of tokens that leaves no value ends with exit code 0. */
  lemma EmptyStackExitsZero(argv: seq<string>)
    requires StaysInStack(Tokens(argv), 0)
    requires NumberCount(Tokens(argv)) * 2 == |Tokens(argv)|
    ensures Result(Eval(Tokens(argv), [])) == 0
  {
    EvalDepth(Tokens(argv), []);
  }

  /** Two number tokens followed by "-" leave the first value minus the
      second. */
  lemma SubtractTokens(x: string, y: string)
    requires !IsOperator(x) && !IsOperator(y)
    ensures StaysInStack([x, y, "-"], 0)
    ensures Eval([x, y, "-"], []) == [ToInt64(Atol(x) - Atol(y))]
  {
    var tokens := [x, y, "-"];
    assert tokens[1..] == [y, "-"];
    assert tokens[1..][1..] == ["-"];
    assert StaysInStack(["-"], 2);
    assert StaysInStack([y, "-"], 1);
    var a, b := Atol(x), Atol(y);
    assert Step([], x) == [a];
    assert Step([a], y) == [a, b];
    assert Eval(["-"], [a, b]) == [ToInt64(a - b)];
    assert Eval([y, "-"], [a]) == Eval(["-"], [a, b]);
  }

  /** `rpn a b -` leaves `a - b`, wrapped to a `long`: the deeper operand is
      the minuend. */
  lemma SubtractionOrder(a: int, b: int)
    requires LongMin <= a <= LongMax && LongMin <= b <= LongMax
    ensures StaysInStack([ShowLong(a), ShowLong(b), "-"], 0)
    ensures Eval([ShowLong(a), ShowLong(b), "-"], []) == [ToInt64(a - b)]
  {
    ShowLongNotOperator(a);
    ShowLongNotOperator(b);
    AtolShowLong(a);
    AtolShowLong(b);
    SubtractTokens(ShowLong(a), ShowLong(b));
  }

  // Decimal notation, and `atol` reading it back.

  function DigitChar(d: nat): char
    requires d < 10
  {
    ('0' as int + d) as char
  }

  /** The decimal digits of `n`, most significant first. */
  function Decimal(n: nat): (s: string)
    ensures s != [] && forall k :: 0 <= k < |s| ==> IsDigit(s[k])
  {
    if n < 10 then [DigitChar(n)] else Decimal(n / 10) + [DigitChar(n % 10)]
  }

  lemma {:induction false} DecimalValue(n: nat)
    ensures DigitsValue(Decimal(n)) == n
  {
    var s := Decimal(n);
    if n < 10 {
      assert s[..|s| - 1] == [];
    } else {
      assert s[..|s| - 1] == Decimal(n / 10);
      DecimalValue(n / 10);
    }
  }

  lemma {:induction false} AllDigitsLead(s: string)
    requires forall k :: 0 <= k < |s| ==> IsDigit(s[k])
    ensures LeadingDigits(s) == s
  {
    if s != [] {
      AllDigitsLead(s[1..]);
    }
  }

  /** A `long` written in decimal, with a leading '-' when negative. */
  function ShowLong(n: int): string
  {
    if n < 0 then "-" + Decimal(-n) else Decimal(n)
  }

  /** A number written in decimal is never taken for an operator. */
  lemma ShowLongNotOperator(n: int)
    ensures !IsOperator(ShowLong(n))
  {
    var s := ShowLong(n);
    if n >= 0 {
      assert IsDigit(s[0]);
    } else {
      assert |s| >= 2;
    }
  }

  /** `atol` of a plain string of digits is its value, saturated. */
  lemma AtolDigits(s: string)
    requires s != [] && forall k :: 0 <= k < |s| ==> IsDigit(s[k])
    ensures Atol(s) == ClampLong(DigitsValue(s))
  {
    assert IsDigit(s[0]);
    assert SkipSpace(s) == s;
    AllDigitsLead(s);
  }

  /** `atol` of a '-' followed by digits is minus their value, saturated. */
  lemma AtolMinusDigits(t: string)
    requires |t| > 1 && t[0] == '-' && forall k :: 1 <= k < |t| ==> IsDigit(t[k])
    ensures Atol(t) == ClampLong(-(DigitsValue(t[1..]) as int))
  {
    assert SkipSpace(t) == t;
    AllDigitsLead(t[1..]);
  }

  /** `atol` reads back every `long` written in decimal. */
  lemma AtolShowLong(n: int)
    requires LongMin <= n <= LongMax
    ensures Atol(ShowLong(n)) == n
  {
    var t := ShowLong(n);
    if n < 0 {
      DecimalValue(-n);
      assert t[1..] == Decimal(-n);
      AtolMinusDigits(t);
      assert DigitsValue(t[1..]) == -n;
    } else {
      DecimalValue(n);
      AtolDigits(t);
    }
    assert ClampLong(n) == n;
  }
}
