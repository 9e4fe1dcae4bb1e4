/** Passing the client's parameters to the guardian through its argument vector, and back. */
module Arguments {

  const INITIAL_ARGS: nat := 4
  const ARG_LEN: nat := 10
  const NUL: char := '\0'

  // ---------- Numbers ----------

  function Digit(d: nat): char
    requires d < 10
  {
    '0' + d as char
  }

  predicate IsDigit(c: char) { '0' <= c <= '9' }

  function Value(c: char): nat
    requires IsDigit(c)
  {
    (c - '0') as nat
  }

  /** The decimal form of n, without leading zeros. */
  function Decimal(n: nat): (s: string)
    ensures |s| >= 1
  {
    if n < 10 then [Digit(n)] else Decimal(n / 10) + [Digit(n % 10)]
  }

  /** atoi, on text without blanks or sign: the value of the leading digits. */
  function Atoi(s: string, acc: nat): nat {
    if s == "" || !IsDigit(s[0]) then acc else Atoi(s[1..], 10 * acc + Value(s[0]))
  }

  lemma {:induction false} AtoiAppend(s: string, d: char, rest: string, acc: nat)
    requires (forall i :: 0 <= i < |s| ==> IsDigit(s[i])) && IsDigit(d)
    requires rest == "" || !IsDigit(rest[0])
    ensures Atoi(s + [d] + rest, acc) == 10 * Atoi(s, acc) + Value(d)
  {
    if s == "" {
      assert ("" + [d] + rest)[1..] == rest;
    } else {
      assert (s + [d] + rest)[1..] == s[1..] + [d] + rest;
      AtoiAppend(s[1..], d, rest, 10 * acc + Value(s[0]));
    }
  }

  lemma {:induction false} DecimalDigits(n: nat)
    ensures forall i :: 0 <= i < |Decimal(n)| ==> IsDigit(Decimal(n)[i])
  {
    if n < 10 {
    } else {
      DecimalDigits(n / 10);
    }
  }

  /** atoi reads back the decimal form, whatever follows its terminator. */
  lemma {:induction false} AtoiOfDecimal(n: nat, rest: string)
    requires rest == "" || !IsDigit(rest[0])
    ensures Atoi(Decimal(n) + rest, 0) == n
  {
    if n < 10 {
      AtoiAppend("", Digit(n), rest, 0);
      assert "" + [Digit(n)] + rest == Decimal(n) + rest;
    } else {
      DecimalDigits(n / 10);
      AtoiAppend(Decimal(n / 10), Digit(n % 10), rest, 0);
      AtoiOfDecimal(n / 10, "");
      assert Decimal(n / 10) + "" == Decimal(n / 10);
    }
  }

  function Power10(k: nat): nat { if k == 0 then 1 else 10 * Power10(k - 1) }

  lemma {:induction false} DecimalLength(n: nat, k: nat)
    requires k >= 1
    ensures |Decimal(n)| <= k <==> n < Power10(k)
    decreases k
  {
    if k == 1 {
      assert Power10(1) == 10;
    } else if n < 10 {
      PowerGrows(k - 1);
    } else {
      DecimalLength(n / 10, k - 1);
    }
  }

  lemma {:induction false} PowerGrows(k: nat)
    ensures Power10(k) >= 1
  {
    if k == 0 {
    } else {
      PowerGrows(k - 1);
    }
  }

  /** A number and its terminator fit an argument buffer exactly when it is below 10^9. */
  lemma {:induction false} FitsBuffer(n: nat)
    ensures |Decimal(n)| + 1 <= ARG_LEN <==> n < 1_000_000_000
  {
    DecimalLength(n, 9);
    assert Power10(3) == 1000;
    assert Power10(6) == 1000 * Power10(3);
    assert Power10(9) == 1000 * Power10(6);
  }

  /** The last digit of a prefix that is a number's decimal form, and what is before it. */
  lemma {:induction false} LastDigit(left: nat, s: string, k: nat)
    requires k < |s| && Decimal(left) == s[..k + 1]
    ensures s[k] == Digit(left % 10) && (k > 0 ==> Decimal(left / 10) == s[..k])
  {
    assert s[..k + 1][k] == s[k] && s[..k + 1][..k] == s[..k];
  }

  /** The first loop of ItoaIMP. */
  method CountDigits(num: nat) returns (numLen: nat)
    requires 0 < num
    ensures numLen == |Decimal(num)|
  {
    var numCopy := num;
    numLen := 0;
    while numCopy != 0
      invariant numLen + (if numCopy == 0 then 0 else |Decimal(numCopy)|) == |Decimal(num)|
      decreases numCopy
    {
      numLen := numLen + 1;
      numCopy := numCopy / 10;
    }
  }

  /** The second one, from the last digit to the first. */
  method WriteDigits(text: array<char>, count: nat, num: nat)
    requires count == |Decimal(num)| < text.Length
    modifies text
    ensures text[..|Decimal(num)|] == Decimal(num)
    ensures text[|Decimal(num)|..] == old(text[|Decimal(num)|..])
  {
    ghost var s := Decimal(num);
    var numLen, left := count, num;
    while numLen > 0
      invariant 0 <= numLen <= |s|
      invariant numLen > 0 ==> Decimal(left) == s[..numLen]
      invariant text[numLen..|s|] == s[numLen..]
      invariant text[|s|..] == old(text[|s|..])
    {
      numLen := numLen - 1;
      text[numLen] := Digit(left % 10);
      LastDigit(left, s, numLen);
      left := left / 10;
    }
  }

  /** ItoaIMP. The caller provides room for the digits and the terminator. */
  method Itoa(text: array<char>, num: nat)
    requires 0 < num && |Decimal(num)| < text.Length
    modifies text
    ensures text[..|Decimal(num)|] == Decimal(num) && text[|Decimal(num)|] == NUL
    ensures text[|Decimal(num)| + 1..] == old(text[|Decimal(num)| + 1..])
  {
    var numLen := CountDigits(num);
    text[numLen] := NUL;
    WriteDigits(text, numLen, num);
    assert text[numLen..][0] == NUL;
    assert text[numLen..][1..] == text[numLen + 1..];
  }

  // ---------- Argument vectors ----------

  datatype Arg = Null | Str(text: string)

  /** A vector of argc strings and the null pointer execv requires. */
  predicate Terminated(args: seq<Arg>, argc: nat) {
    |args| == argc + 1 && args[argc] == Null && forall i :: 0 <= i < argc ==> args[i].Str?
  }

  /** The text a character buffer holds: what comes before the first terminator. */
  function Text(b: seq<char>): (s: string) {
    if b == [] || b[0] == NUL then "" else [b[0]] + Text(b[1..])
  }

  lemma {:induction false} TextOf(s: string, rest: seq<char>)
    requires NUL !in s && rest != [] && rest[0] == NUL
    ensures Text(s + rest) == s
  {
    if s == "" {
      assert s + rest == rest;
    } else {
      assert (s + rest)[1..] == s[1..] + rest;
      TextOf(s[1..], rest);
    }
  }

  /** What a program started with `args` is given: the vector up to its first null pointer. */
  function Execv(args: seq<Arg>): seq<Arg> {
    if args == [] then [] else if args[0].Null? then [Null] else [args[0]] + Execv(args[1..])
  }

  lemma {:induction false} ExecvTerminated(args: seq<Arg>, argc: nat)
    requires Terminated(args, argc)
    ensures Execv(args) == args
  {
    if argc == 0 {
    } else {
      ExecvTerminated(args[1..], argc - 1);
    }
  }

  datatype Params = Params(seconds: nat, maxMissed: nat, argc: nat, argv: seq<Arg>)

  /** Parameters MakeMeImmortal accepts, and small enough for their buffers. */
  predicate Passable(p: Params) {
    && 0 < p.seconds < 1_000_000_000 && 0 < p.maxMissed < 1_000_000_000 && 0 < p.argc < 1_000_000_000
    && Terminated(p.argv, p.argc)
  }

  function Encoded(path: string, p: Params): seq<Arg> {
    [Str(path), Str(Decimal(p.seconds)), Str(Decimal(p.maxMissed)), Str(Decimal(p.argc))] + p.argv
  }

  /** What each entry of the vector is for: the program to run, three numbers atoi reads back, and
      the client's arguments up to the null pointer. */
  predicate Laid(args: seq<Arg>, path: string, p: Params) {
    && |args| == INITIAL_ARGS + |p.argv| && args[0] == Str(path)
    && args[1].Str? && Atoi(args[1].text, 0) == p.seconds
    && args[2].Str? && Atoi(args[2].text, 0) == p.maxMissed
    && args[3].Str? && Atoi(args[3].text, 0) == p.argc
    && forall i :: 0 <= i < |p.argv| ==> args[INITIAL_ARGS + i] == p.argv[i]
  }

  lemma {:induction false} EncodedLayout(path: string, p: Params)
    ensures Laid(Encoded(path, p), path, p)
  {
    Recovered(p.seconds);
    Recovered(p.maxMissed);
    Recovered(p.argc);
  }

  /** A buffer from calloc with a number written into it. */
  method NumberArg(num: nat) returns (a: Arg)
    requires 0 < num < 1_000_000_000
    ensures a == Str(Decimal(num))
  {
    FitsBuffer(num);
    var buffer := new char[ARG_LEN](_ => NUL);
    Itoa(buffer, num);
    DecimalDigits(num);
    var k := |Decimal(num)|;
    TextOf(Decimal(num), buffer[k..]);
    assert buffer[..] == Decimal(num) + buffer[k..];
    a := Str(Text(buffer[..]));
  }

  /** CreateArgvIMP: the guardian's path, three numbers, and the client's own arguments. */
  method CreateArgv(path: string, p: Params) returns (newArgv: array<Arg>)
    requires Passable(p)
    ensures fresh(newArgv) && newArgv[..] == Encoded(path, p) && Laid(newArgv[..], path, p)
  {
    EncodedLayout(path, p);
    var newArgc := p.argc + INITIAL_ARGS;
    newArgv := new Arg[newArgc + 1](_ => Null);
    newArgv[0] := Str(path);
    newArgv[1] := NumberArg(p.seconds);
    newArgv[2] := NumberArg(p.maxMissed);
    newArgv[3] := NumberArg(p.argc);
    ghost var head := newArgv[..INITIAL_ARGS];
    for curr := 0 to p.argc
      invariant newArgv[..INITIAL_ARGS] == head
      invariant forall i :: 0 <= i < curr ==> newArgv[INITIAL_ARGS + i] == p.argv[i]
    {
      newArgv[curr + INITIAL_ARGS] := p.argv[curr];
    }
    newArgv[p.argc + INITIAL_ARGS] := Null;
    assert newArgv[INITIAL_ARGS..] == p.argv;
    assert newArgv[..] == head + newArgv[INITIAL_ARGS..];
  }

  /** WatchdogApp's reading of its arguments; it insists on three numbers that are not zero. */
  function Decode(args: seq<Arg>): (p: Params)
    requires |args| > INITIAL_ARGS && forall i :: 1 <= i < INITIAL_ARGS ==> args[i].Str?
  {
    Params(Atoi(args[1].text, 0), Atoi(args[2].text, 0), Atoi(args[3].text, 0), args[INITIAL_ARGS..])
  }

  /** The guardian recovers interval, limit, argc and argv exactly. */
  lemma {:induction false} RevivalRoundTrip(path: string, p: Params)
    requires Passable(p)
    ensures var args := Execv(Encoded(path, p));
      |args| > INITIAL_ARGS && (forall i :: 1 <= i < INITIAL_ARGS ==> args[i].Str?) && Decode(args) == p
  {
    var args := Encoded(path, p);
    ExecvTerminated(args, p.argc + INITIAL_ARGS);
    Recovered(p.seconds);
    Recovered(p.maxMissed);
    Recovered(p.argc);
    assert args[INITIAL_ARGS..] == p.argv;
  }

  lemma {:induction false} Recovered(n: nat)
    ensures Atoi(Decimal(n), 0) == n
  {
    AtoiOfDecimal(n, "");
    assert Decimal(n) + "" == Decimal(n);
  }

  /** What the guardian passes on to the client it becomes: its own arguments after the first
      four. It insists that there are four. */
  function PassedOn(args: seq<Arg>): seq<Arg> {
    if |args| < INITIAL_ARGS then [] else args[INITIAL_ARGS..]
  }

  /** The client's arguments after a number of rounds in which the client starts a guardian,
      with whatever interval and limit it then uses, and the guardian restarts the client. */
  function Restarted(path: string, argv: seq<Arg>, argc: nat, rounds: seq<(nat, nat)>): seq<Arg>
    decreases |rounds|
  {
    if rounds == [] then argv
    else
      var args := Execv(Encoded(path, Params(rounds[0].0, rounds[0].1, argc, argv)));
      Restarted(path, Execv(PassedOn(args)), argc, rounds[1..])
  }

  /** However often they revive each other, the client restarts with its original arguments. */
  lemma {:induction false} RestartKeepsArguments(path: string, argv: seq<Arg>, argc: nat, rounds: seq<(nat, nat)>)
    requires Terminated(argv, argc)
    ensures Restarted(path, argv, argc, rounds) == argv
    decreases |rounds|
  {
    if rounds == [] {
    } else {
      var args := Encoded(path, Params(rounds[0].0, rounds[0].1, argc, argv));
      ExecvTerminated(args, argc + INITIAL_ARGS);
      assert args[INITIAL_ARGS..] == argv;
      ExecvTerminated(argv, argc);
      RestartKeepsArguments(path, argv, argc, rounds[1..]);
    }
  }
}
