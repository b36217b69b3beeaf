/**
 The append-only file's format: catAppendOnlyGenericCommand prints a command,
 loadAppendOnlyFile reads the file back and must cope with a tail torn off
 anywhere.  Arguments are arbitrary bytes.
 */
module AofFormat {
  import opened Decimal

  type Command = seq<bytes>

  const STAR: byte := 42
  const DOLLAR: byte := 36
  const CR: byte := 13
  const LF: byte := 10

  const CRLF: bytes := [CR, LF]

  // ------------------------------------------------------------------
  // Printing
  // ------------------------------------------------------------------

  /** "*<n>\r\n" or "$<n>\r\n" */
  function Head(mark: byte, n: nat): bytes {
    [mark] + Print(n) + CRLF
  }

  function PrintArg(a: bytes): bytes {
    Head(DOLLAR, |a|) + (a + CRLF)
  }

  function PrintArgs(args: seq<bytes>): bytes {
    if args == [] then [] else PrintArg(args[0]) + PrintArgs(args[1..])
  }

  function PrintCommand(c: Command): bytes {
    Head(STAR, |c|) + PrintArgs(c)
  }

  function PrintLog(log: seq<Command>): bytes {
    if log == [] then [] else PrintCommand(log[0]) + PrintLog(log[1..])
  }

  lemma {:induction false} PrintArgsSnoc(args: seq<bytes>, a: bytes)
    ensures PrintArgs(args + [a]) == PrintArgs(args) + PrintArg(a)
  {
    hide PrintArg;
    if args == [] {
      assert (args + [a])[1..] == [];
    } else {
      assert (args + [a])[1..] == args[1..] + [a];
      PrintArgsSnoc(args[1..], a);
    }
  }

  /** catAppendOnlyGenericCommand */
  method CatGenericCommand(dst: bytes, argv: Command) returns (r: bytes)
    ensures r == dst + PrintCommand(argv)
  {
    hide PrintArgs;
    r := dst + Head(STAR, |argv|);
    ghost var start := r;
    assert PrintArgs([]) == [] by { NoArgs(); }
    var j := 0;
    while j < |argv|
      invariant 0 <= j <= |argv|
      invariant r == start + PrintArgs(argv[..j])
    {
      PrintArgsSnoc(argv[..j], argv[j]);
      assert argv[..j + 1] == argv[..j] + [argv[j]];
      r := r + PrintArg(argv[j]);
      j := j + 1;
    }
    assert argv[..j] == argv;
  }

  lemma NoArgs()
    ensures PrintArgs([]) == []
  {
  }

  // ------------------------------------------------------------------
  // Reading
  // ------------------------------------------------------------------

  /** How many bytes fgets takes from `s` into a buffer of `limit` + 1. */
  function LineLength(s: bytes, limit: nat): (k: nat)
    ensures k <= |s| && k <= limit && (s != [] && limit > 0 ==> k > 0)
  {
    if s == [] || limit == 0 then 0
    else if s[0] == LF then 1
    else 1 + LineLength(s[1..], limit - 1)
  }

  const LIMIT: nat := 127

  /** Whether fgets ran into the end of the file. */
  predicate HitsEnd(s: bytes) {
    var k := LineLength(s, LIMIT);
    k == |s| && k < LIMIT && (k > 0 ==> s[k - 1] != LF)
  }

  /** The outcome of reading one argument or command: what was read and what
      is left, an unexpected end of file, a format error, or an error the
      loader does not recover from. */
  datatype Read<T> = Got(value: T, rest: bytes) | Short | Bad | Fatal

  function ReadArg(s: bytes): Read<bytes> {
    if s == [] then Short else
      var k := LineLength(s, LIMIT);
      if s[0] != DOLLAR then Bad else
        var len := Atoi(s[1..k]);
        var rest := s[k..];
        if len < 0 then Fatal
        else if len > |rest| || |rest| - len < 2 then Short
        else Got(rest[..len], rest[len + 2..])
  }

  function ReadArgs(s: bytes, n: nat): Read<seq<bytes>> {
    if n == 0 then Got([], s) else
      match ReadArg(s)
      case Short => Short
      case Bad => Bad
      case Fatal => Fatal
      case Got(a, rest) =>
        match ReadArgs(rest, n - 1)
        case Got(more, left) => Got([a] + more, left)
        case failed => failed
  }

  /** Counts and lengths of a C program on a 64-bit machine. */
  const LONG_MAX: int := 0x7fff_ffff_ffff_ffff
  const INT_MAX: int := 0x7fff_ffff

  /** What atoi returns of a number: strtol keeps it within a long, of which an
      int gets the lower half. */
  function ToInt(n: int): (r: int)
    ensures 0 <= n <= INT_MAX ==> r == n
  {
    var long := if n > LONG_MAX then LONG_MAX else if n < -LONG_MAX - 1 then -LONG_MAX - 1 else n;
    (long + INT_MAX + 1) % 0x1_0000_0000 - INT_MAX - 1
  }

  function ReadCommand(s: bytes): Read<Command>
    requires s != []
  {
    var k := LineLength(s, LIMIT);
    if s[0] != STAR then Bad
    else if k == 1 || s[1] == 0 then (if HitsEnd(s) then Short else Fatal)
    else
      var argc := ToInt(Atoi(s[1..k]));
      if argc < 1 then Bad else ReadArgs(s[k..], argc)
  }

  // ------------------------------------------------------------------
  // Lines of a printed log
  // ------------------------------------------------------------------

  /** The argument count fits in an int, the lengths in a long. */
  ghost predicate Sized(c: Command) {
    0 < |c| <= INT_MAX && forall i | 0 <= i < |c| :: |c[i]| <= LONG_MAX
  }

  lemma {:induction false} LineIs(s: bytes, t: bytes, limit: nat)
    requires LF !in s && |s| < limit
    ensures LineLength(s + [LF] + t, limit) == |s| + 1
    ensures LineLength(s, limit) == |s|
  {
    var u := s + [LF] + t;
    if s != [] {
      assert u[1..] == s[1..] + [LF] + t;
      LineIs(s[1..], t, limit - 1);
    }
  }

  lemma PrintFits(n: nat)
    requires n <= LONG_MAX
    ensures |Print(n)| <= 19 && LF !in Print(n)
  {
    assert Pow10(19) == 1_0000_0000_0000_0000_000 by {
      assert Pow10(5) == 100000;
      assert Pow10(10) == 10000000000;
      assert Pow10(15) == 1000000000000000;
    }
    PrintLength(n, 19);
  }

  /** A header line read back. */
  lemma HeadLine(mark: byte, n: nat, t: bytes)
    requires n <= LONG_MAX && mark != LF
    ensures var s := Head(mark, n) + t;
            && LineLength(s, LIMIT) == |Head(mark, n)| && s[|Head(mark, n)|..] == t
            && s[0] == mark && |Head(mark, n)| > 2 && s[1] != 0
            && Atoi(s[1..|Head(mark, n)|]) == n
  {
    var s, line := Head(mark, n) + t, [mark] + Print(n) + [CR];
    PrintFits(n);
    assert LF !in line;
    LineIs(line, t, LIMIT);
    assert s == line + [LF] + t;
    assert s[1..|Head(mark, n)|] == Print(n) + CRLF;
    AtoiPrint(n, CRLF);
    assert s[1] == Print(n)[0] && IsDigit(Print(n)[0]);
  }

  lemma ArgRead(a: bytes, t: bytes)
    requires |a| <= LONG_MAX
    ensures ReadArg(PrintArg(a) + t) == Got(a, t)
  {
    hide Head;
    var s := PrintArg(a) + t;
    assert s == Head(DOLLAR, |a|) + (a + CRLF + t);
    HeadLine(DOLLAR, |a|, a + CRLF + t);
    assert (a + CRLF + t)[..|a|] == a && (a + CRLF + t)[|a| + 2..] == t;
  }

  lemma {:induction false} ArgsRead(args: seq<bytes>, t: bytes)
    requires forall i | 0 <= i < |args| :: |args[i]| <= LONG_MAX
    ensures ReadArgs(PrintArgs(args) + t, |args|) == Got(args, t)
  {
    hide PrintArg, ReadArg;
    if args == [] {
      assert PrintArgs(args) + t == t;
    } else {
      assert PrintArgs(args) + t == PrintArg(args[0]) + (PrintArgs(args[1..]) + t);
      ArgRead(args[0], PrintArgs(args[1..]) + t);
      ArgsRead(args[1..], t);
      assert [args[0]] + args[1..] == args;
    }
  }

  /** A printed command is read back, whatever follows it. */
  lemma CommandRead(c: Command, t: bytes)
    requires Sized(c)
    ensures PrintCommand(c) != [] && ReadCommand(PrintCommand(c) + t) == Got(c, t)
  {
    hide Head, PrintArgs, ReadArgs;
    var s := PrintCommand(c) + t;
    assert s == Head(STAR, |c|) + (PrintArgs(c) + t);
    HeadLine(STAR, |c|, PrintArgs(c) + t);
    ArgsRead(c, t);
  }

  // ------------------------------------------------------------------
  // Torn tails
  // ------------------------------------------------------------------

  lemma {:induction false} LeadingDigit(n: nat)
    requires n > 0
    ensures Print(n)[0] >= 49
  {
    if n >= 10 {
      LeadingDigit(n / 10);
    }
  }

  lemma DigitValue(b: byte)
    requires IsDigit(b)
    ensures Value([b]) == b as int - 48
  {
    assert [b][..0] == [];
  }

  /** A header cut off before its line feed: a non-negative number, and a
      positive one if the full number is and its first digit is there. */
  lemma TornHead(mark: byte, n: nat, k: nat)
    requires n <= LONG_MAX && mark != LF && 0 < k < |Head(mark, n)|
    ensures var s := Head(mark, n)[..k];
            && s[0] == mark && LineLength(s, LIMIT) == k && HitsEnd(s)
            && 0 <= Atoi(s[1..]) <= n && (n > 0 && k > 1 ==> Atoi(s[1..]) > 0 && s[1] != 0)
  {
    hide Value, Atoi, Print;
    var d := Print(n);
    var s := Head(mark, n)[..k];
    PrintFits(n);
    assert LF !in s;
    LineIs(s, [], LIMIT);
    var m := if k - 1 <= |d| then k - 1 else |d|;
    var t: bytes := if k - 1 <= |d| then [] else [CR];
    assert s[1..] == d[..m] + t;
    AtoiDigits(d[..m], t);
    ValuePrefix(d, m);
    PrintValue(n);
    if n > 0 && k > 1 {
      LeadingDigit(n);
      ValuePrefix(d[..m], 1);
      assert d[..m][..1] == [d[0]];
      DigitValue(d[0]);
    }
  }

  lemma AtoiDigits(d: bytes, t: bytes)
    requires forall i | 0 <= i < |d| :: IsDigit(d[i])
    requires t == [] || t == [CR]
    ensures Atoi(d + t) == Value(d)
  {
    DigitRunIs(d, t);
    assert (d + t)[..|d|] == d;
    if d == [] && t == [CR] {
      assert IsSpace(CR) && (d + t)[1..] == [];
    }
  }

  lemma TornArg(a: bytes, k: nat)
    requires |a| <= LONG_MAX && k < |PrintArg(a)|
    ensures ReadArg(PrintArg(a)[..k]) == Short
  {
    hide Head;
    var h := Head(DOLLAR, |a|);
    var s := PrintArg(a)[..k];
    if 0 < k < |h| {
      assert s == h[..k];
      TornHead(DOLLAR, |a|, k);
      assert s[1..k] == s[1..];
    } else if k > 0 {
      var t := (a + CRLF)[..k - |h|];
      assert s == h + t;
      HeadLine(DOLLAR, |a|, t);
    }
  }

  lemma {:induction false} TornArgs(args: seq<bytes>, k: nat)
    requires forall i | 0 <= i < |args| :: |args[i]| <= LONG_MAX
    requires k < |PrintArgs(args)|
    ensures ReadArgs(PrintArgs(args)[..k], |args|) == Short
  {
    hide PrintArg, ReadArg;
    var p, q := PrintArg(args[0]), PrintArgs(args[1..]);
    if k < |p| {
      assert PrintArgs(args)[..k] == p[..k];
      TornArg(args[0], k);
    } else {
      assert PrintArgs(args)[..k] == p + q[..k - |p|];
      ArgRead(args[0], q[..k - |p|]);
      TornArgs(args[1..], k - |p|);
    }
  }

  lemma NothingLeft(n: nat)
    requires n > 0
    ensures ReadArgs([], n) == Short
  {
  }

  /** A command cut off anywhere is an unexpected end of file, never a format
      error. */
  lemma TornCommand(c: Command, k: nat)
    requires Sized(c) && 0 < k < |PrintCommand(c)|
    ensures ReadCommand(PrintCommand(c)[..k]) == Short
  {
    hide Head, PrintArgs, ReadArg;
    var h := Head(STAR, |c|);
    var s := PrintCommand(c)[..k];
    if k < |h| {
      assert s == h[..k];
      TornHead(STAR, |c|, k);
      assert s[1..k] == s[1..] && s[k..] == [];
      if k > 1 {
        NothingLeft(Atoi(s[1..]));
      }
    } else {
      var t := PrintArgs(c)[..k - |h|];
      assert s == h + t;
      HeadLine(STAR, |c|, t);
      TornArgs(c, k - |h|);
    }
  }

  // ------------------------------------------------------------------
  // The loader
  // ------------------------------------------------------------------

  /** What the command table says of a command's name. */
  datatype Kind = Unknown | Multi | Exec | Plain

  /** The commands handed to the fake client, whether it is inside a MULTI, and
      the two offsets a truncation may go back to. */
  datatype State = State(fed: seq<Command>, inMulti: bool, validUpTo: nat, beforeMulti: nat)

  /** How loading ends: the whole file, the file truncated at an offset, or an
      exit of the server. */
  datatype End = Whole | TruncatedAt(offset: nat) | FormatError | Exit

  const START: State := State([], false, 0, 0)

  function Feed(st: State, c: Command, kind: Kind, offset: nat): State {
    State(st.fed + [c],
          if st.inMulti then kind != Exec else kind == Multi,
          offset,
          if kind == Multi then st.validUpTo else st.beforeMulti)
  }

  /** loadAppendOnlyFile from a file position on, when aof-load-truncated is
      set (without it a truncation is an exit). */
  function Load(table: bytes -> Kind, s: bytes, size: nat, st: State): (End, State)
    requires |s| <= size
    decreases |s|
  {
    if s == [] then (if st.inMulti then (TruncatedAt(st.beforeMulti), st) else (Whole, st)) else
      match ReadCommand(s)
      case Short => (TruncatedAt(st.validUpTo), st)
      case Bad => (FormatError, st)
      case Fatal => (Exit, st)
      case Got(c, rest) =>
        ReadShrinks(s);
        if table(c[0]) == Unknown then (Exit, st) else Load(table, rest, size, Feed(st, c, table(c[0]), size - |rest|))
  }

  lemma {:induction false} ArgsShrink(s: bytes, n: nat)
    ensures ReadArgs(s, n).Got? ==> |ReadArgs(s, n).rest| <= |s| && |ReadArgs(s, n).value| == n
  {
    if n > 0 && ReadArg(s).Got? {
      ArgsShrink(ReadArg(s).rest, n - 1);
    }
  }

  lemma ReadShrinks(s: bytes)
    requires s != []
    ensures ReadCommand(s).Got? ==> |ReadCommand(s).rest| < |s| && |ReadCommand(s).value| > 0
  {
    var k := LineLength(s, LIMIT);
    if k > 1 {
      var argc := ToInt(Atoi(s[1..k]));
      ArgsShrink(s[k..], if argc < 0 then 0 else argc);
    }
  }

  ghost predicate NonEmpty(log: seq<Command>) {
    forall i | 0 <= i < |log| :: |log[i]| > 0
  }

  /** A log the server itself could have written. */
  ghost predicate Loadable(table: bytes -> Kind, log: seq<Command>) {
    NonEmpty(log) && forall i | 0 <= i < |log| :: Sized(log[i]) && table(log[i][0]) != Unknown
  }

  /** The state after the whole commands `log`, printed from `offset` on. */
  ghost function FeedAll(table: bytes -> Kind, log: seq<Command>, st: State, offset: nat): State
    requires NonEmpty(log)
  {
    if log == [] then st else
      var next := offset + |PrintCommand(log[0])|;
      FeedAll(table, log[1..], Feed(st, log[0], table(log[0][0]), next), next)
  }

  /** The MULTI at `m` is the last one, and no EXEC follows it. */
  ghost predicate Opens(table: bytes -> Kind, log: seq<Command>, m: int)
    requires NonEmpty(log)
  {
    && 0 <= m < |log| && table(log[m][0]) == Multi
    && forall j | m < j < |log| :: table(log[j][0]) != Multi && table(log[j][0]) != Exec
  }

  lemma {:induction false} FeedAllLast(table: bytes -> Kind, log: seq<Command>, st: State, offset: nat)
    requires NonEmpty(log) && log != []
    ensures var init, c := log[..|log| - 1], log[|log| - 1];
            FeedAll(table, log, st, offset)
                == Feed(FeedAll(table, init, st, offset), c, table(c[0]), offset + |PrintLog(log)|)
  {
    hide PrintCommand, Feed;
    var next := offset + |PrintCommand(log[0])|;
    var after := Feed(st, log[0], table(log[0][0]), next);
    var init := log[..|log| - 1];
    if |log| == 1 {
      assert FeedAll(table, log[1..], after, next) == after && PrintLog(log[1..]) == [];
      assert FeedAll(table, init, st, offset) == st;
    } else {
      FeedAllLast(table, log[1..], after, next);
      assert init[1..] == log[1..][..|log| - 2];
    }
  }

  lemma OpensInside(table: bytes -> Kind, log: seq<Command>, m: int)
    requires NonEmpty(log) && Opens(table, log, m)
    ensures 0 <= m < |log|
  {
  }

  lemma OpensNext(table: bytes -> Kind, log: seq<Command>)
    requires NonEmpty(log) && log != []
    ensures var n := |log| - 1; var kind := table(log[n][0]);
            && (Opens(table, log, n) <==> kind == Multi)
            && forall m | 0 <= m < n ::
                 Opens(table, log, m) <==> Opens(table, log[..n], m) && kind != Multi && kind != Exec
  {
  }

  /** Whether a MULTI is open, command by command. */
  lemma StillOpen(table: bytes -> Kind, log: seq<Command>)
    requires NonEmpty(log) && log != []
    ensures var n := |log| - 1; var kind := table(log[n][0]);
            (exists m :: Opens(table, log, m))
            <==> kind == Multi || (kind != Exec && exists m :: Opens(table, log[..n], m))
  {
    hide Opens;
    var n := |log| - 1;
    OpensNext(table, log);
    if m :| Opens(table, log, m) {
      OpensInside(table, log, m);
    }
    if m :| Opens(table, log[..n], m) {
      OpensInside(table, log[..n], m);
    }
  }

  /** The two fields that decide about a MULTI left open. */
  lemma {:induction false} MultiState(table: bytes -> Kind, log: seq<Command>)
    requires NonEmpty(log)
    ensures var last := FeedAll(table, log, START, 0);
            && (last.inMulti <==> exists m :: Opens(table, log, m))
            && forall m | Opens(table, log, m) :: last.beforeMulti == |PrintLog(log[..m])|
  {
    if log != [] {
      var n := |log| - 1;
      var init := log[..n];
      MultiState(table, init);
      FeedAllLast(table, log, START, 0);
      FedInOrder(table, init, START, 0);
      hide PrintLog, FeedAll, Opens;
      var before, last := FeedAll(table, init, START, 0), FeedAll(table, log, START, 0);
      assert before.validUpTo == |PrintLog(init)| by { NothingPrinted(); }
      OpensNext(table, log);
      StillOpen(table, log);
      forall m | Opens(table, log, m) ensures last.beforeMulti == |PrintLog(log[..m])| {
        OpensInside(table, log, m);
        if m < n {
          assert init[..m] == log[..m];
        }
      }
    }
  }

  lemma NothingPrinted()
    ensures PrintLog([]) == []
  {
  }

  ghost function EndOf(st: State, torn: bool): End {
    if torn then TruncatedAt(st.validUpTo)
    else if st.inMulti then TruncatedAt(st.beforeMulti)
    else Whole
  }

  lemma LoadStep(table: bytes -> Kind, c: Command, rest: bytes, size: nat, st: State)
    requires Sized(c) && table(c[0]) != Unknown && |PrintCommand(c) + rest| <= size
    ensures Load(table, PrintCommand(c) + rest, size, st)
            == Load(table, rest, size, Feed(st, c, table(c[0]), size - |rest|))
  {
    hide PrintCommand, ReadCommand;
    CommandRead(c, rest);
  }

  lemma LoadTail(table: bytes -> Kind, c: Command, k: nat, size: nat, st: State)
    requires Sized(c) && k < |PrintCommand(c)| && k <= size
    ensures Load(table, PrintCommand(c)[..k], size, st) == (EndOf(st, k > 0), st)
  {
    hide PrintCommand, ReadCommand;
    if k > 0 {
      TornCommand(c, k);
    }
  }

  lemma SplitFirst(log: seq<Command>, tail: bytes)
    requires log != []
    ensures PrintLog(log) + tail == PrintCommand(log[0]) + (PrintLog(log[1..]) + tail)
  {
    hide PrintCommand;
  }

  /** Loading whole commands and then a proper, possibly empty, part of
      another one. */
  lemma {:induction false} TornLog(table: bytes -> Kind, log: seq<Command>, next: Command, k: nat, size: nat, st: State)
    requires Loadable(table, log) && Sized(next) && k < |PrintCommand(next)|
    requires |PrintLog(log)| + k <= size
    ensures var last := FeedAll(table, log, st, size - |PrintLog(log)| - k);
            Load(table, PrintLog(log) + PrintCommand(next)[..k], size, st) == (EndOf(last, k > 0), last)
  {
    hide PrintCommand, Load, Feed;
    var tail := PrintCommand(next)[..k];
    if log == [] {
      assert PrintLog(log) + tail == tail;
      LoadTail(table, next, k, size, st);
    } else {
      var c, rest := log[0], PrintLog(log[1..]) + tail;
      SplitFirst(log, tail);
      LoadStep(table, c, rest, size, st);
      assert size - |rest| == size - |PrintLog(log)| - k + |PrintCommand(c)|;
      TornLog(table, log[1..], next, k, size, Feed(st, c, table(c[0]), size - |rest|));
    }
  }

  lemma {:induction false} FedInOrder(table: bytes -> Kind, log: seq<Command>, st: State, offset: nat)
    requires NonEmpty(log)
    ensures var last := FeedAll(table, log, st, offset);
            && last.fed == st.fed + log
            && last.validUpTo == (if log == [] then st.validUpTo else offset + |PrintLog(log)|)
            && (!st.inMulti && (forall i | 0 <= i < |log| :: table(log[i][0]) != Multi) ==> !last.inMulti)
  {
    hide PrintCommand;
    if log != [] {
      var next := offset + |PrintCommand(log[0])|;
      FedInOrder(table, log[1..], Feed(st, log[0], table(log[0][0]), next), next);
      assert st.fed + [log[0]] + log[1..] == st.fed + log;
    }
  }

  /** The commands a prefix of `k` bytes of the log holds whole. */
  ghost predicate Holds(log: seq<Command>, k: nat, i: nat) {
    && i <= |log| && |PrintLog(log[..i])| <= k
    && (if i < |log| then k < |PrintLog(log[..i])| + |PrintCommand(log[i])| else k == |PrintLog(log)|)
  }

  function HeldWhole(log: seq<Command>, k: nat): nat {
    if log == [] || k < |PrintCommand(log[0])| then 0
    else 1 + HeldWhole(log[1..], k - |PrintCommand(log[0])|)
  }

  lemma {:induction false} HeldWholeHolds(log: seq<Command>, k: nat)
    requires k <= |PrintLog(log)|
    ensures Holds(log, k, HeldWhole(log, k))
  {
    hide PrintCommand;
    if log != [] && k >= |PrintCommand(log[0])| {
      var i := HeldWhole(log[1..], k - |PrintCommand(log[0])|);
      HeldWholeHolds(log[1..], k - |PrintCommand(log[0])|);
      assert log[..i + 1][1..] == log[1..][..i];
    }
  }

  lemma {:induction false} LogSplit(log: seq<Command>, i: nat)
    requires i <= |log|
    ensures PrintLog(log) == PrintLog(log[..i]) + PrintLog(log[i..])
  {
    hide PrintCommand;
    if i == 0 {
      assert log[..0] == [] && log[0..] == log;
    } else {
      LogSplit(log[1..], i - 1);
      assert log[1..][..i - 1] == log[..i][1..] && log[1..][i - 1..] == log[i..];
    }
  }

  /** Any byte prefix of a log.  The loader feeds exactly the commands the
      prefix holds whole and never reports a format error; a prefix that ends
      inside a command is truncated where the last whole command ends, and one
      that ends between commands is loaded whole unless a MULTI is open, in
      which case it is truncated right before that MULTI. */
  lemma AnyPrefixLoads(table: bytes -> Kind, log: seq<Command>, k: nat, i: nat)
    requires Loadable(table, log) && k <= |PrintLog(log)| && Holds(log, k, i)
    ensures var whole := |PrintLog(log[..i])|;
            var (end, last) := Load(table, PrintLog(log)[..k], k, START);
            && last.fed == log[..i]
            && last.validUpTo == whole
            && (last.inMulti <==> exists m :: Opens(table, log[..i], m))
            && (k > whole ==> end == TruncatedAt(whole))
            && (k == whole && !last.inMulti ==> end == Whole)
            && forall m | Opens(table, log[..i], m) ::
                 && last.beforeMulti == |PrintLog(log[..m])|
                 && (k == whole ==> end == TruncatedAt(|PrintLog(log[..m])|))
  {
    hide Load, PrintLog, FeedAll, NonEmpty, Loadable, Holds, Opens;
    PrefixLoads(table, log, k, i);
    var held := log[..i];
    var last := FeedAll(table, held, START, 0);
    FedInOrder(table, held, START, 0);
    NothingPrinted();
    MultiState(table, held);
    assert [] + held == held;
    forall m | Opens(table, held, m) ensures 0 <= m < i && log[..m] == held[..m] && last.inMulti {
      OpensInside(table, held, m);
    }
  }

  /** The commands held whole are fed, and the rest of the prefix is an
      unexpected end of file unless it is empty. */
  lemma PrefixLoads(table: bytes -> Kind, log: seq<Command>, k: nat, i: nat)
    requires Loadable(table, log) && k <= |PrintLog(log)| && Holds(log, k, i)
    ensures i <= |log| && NonEmpty(log[..i]) && |PrintLog(log[..i])| <= k
    ensures var last := FeedAll(table, log[..i], START, 0);
            Load(table, PrintLog(log)[..k], k, START) == (EndOf(last, k > |PrintLog(log[..i])|), last)
  {
    hide PrintCommand, Load, PrintLog, FeedAll;
    var held := log[..i];
    var next: Command := if i < |log| then log[i] else [[]];
    NextPrinted(next);
    assert Sized(next);
    PrefixShape(log, k, i, next);
    TornLog(table, held, next, k - |PrintLog(held)|, k, START);
  }

  lemma NextPrinted(c: Command)
    ensures |PrintCommand(c)| > 0
  {
  }

  lemma PrefixShape(log: seq<Command>, k: nat, i: nat, next: Command)
    requires k <= |PrintLog(log)| && Holds(log, k, i) && |PrintCommand(next)| > 0 && (i < |log| ==> next == log[i])
    ensures k - |PrintLog(log[..i])| < |PrintCommand(next)|
    ensures PrintLog(log)[..k] == PrintLog(log[..i]) + PrintCommand(next)[..k - |PrintLog(log[..i])|]
  {
    hide PrintCommand;
    LogSplit(log, i);
    if i == |log| {
      assert log[..i] == log;
    } else {
      assert log[i..][0] == log[i];
    }
  }

  /** The round trip: a printed log is loaded whole, command by command; only
      what follows a MULTI left open is cut off the file again. */
  lemma LogRoundTrip(table: bytes -> Kind, log: seq<Command>)
    requires Loadable(table, log)
    ensures var (end, last) := Load(table, PrintLog(log), |PrintLog(log)|, START);
            && last.fed == log
            && ((forall m :: !Opens(table, log, m)) ==> end == Whole)
            && forall m | Opens(table, log, m) :: end == TruncatedAt(|PrintLog(log[..m])|)
  {
    assert log[..|log|] == log && PrintLog(log)[..|PrintLog(log)|] == PrintLog(log);
    AnyPrefixLoads(table, log, |PrintLog(log)|, |log|);
  }

  /** ReadArgs with `j` of its arguments already read. */
  function Resume(done: seq<bytes>, r: Read<seq<bytes>>): Read<seq<bytes>> {
    match r
    case Got(more, rest) => Got(done + more, rest)
    case failed => failed
  }

  lemma ResumeNone(r: Read<seq<bytes>>)
    ensures Resume([], r) == r
  {
    if r.Got? {
      assert [] + r.value == r.value;
    }
  }

  lemma ResumeNext(done: seq<bytes>, s: bytes, n: nat)
    requires n > 0
    ensures Resume(done, ReadArgs(s, n)) ==
            match ReadArg(s)
            case Got(a, rest) => Resume(done + [a], ReadArgs(rest, n - 1))
            case Short => Short
            case Bad => Bad
            case Fatal => Fatal
  {
    hide ReadArg;
    if ReadArg(s).Got? && ReadArgs(ReadArg(s).rest, n - 1).Got? {
      var a, more := ReadArg(s).value, ReadArgs(ReadArg(s).rest, n - 1).value;
      assert done + [a] + more == done + ([a] + more);
    }
  }

  /** One argument, from position `pos`. */
  method LoadArg(file: bytes, pos: nat) returns (r: Read<bytes>)
    requires pos <= |file|
    ensures r == ReadArg(file[pos..])
    ensures r.Got? ==> |r.rest| <= |file| && r.rest == file[|file| - |r.rest|..]
  {
    if pos == |file| {
      return Short;
    }
    var k := LineLength(file[pos..], LIMIT);
    if file[pos] != DOLLAR {
      return Bad;
    }
    var len := Atoi(file[pos..][1..k]);
    var here := pos + k;
    assert file[pos..][k..] == file[here..];
    if len < 0 {
      return Fatal;
    }
    if len > |file| - here {
      return Short;
    }
    var arg := file[here..][..len];
    if |file| - (here + len) < 2 {
      return Short;
    }
    assert file[here..][len + 2..] == file[here + len + 2..];
    r := Got(arg, file[here + len + 2..]);
  }

  /** The loop that reads the arguments of one command, from position `pos`. */
  method LoadArgs(file: bytes, pos: nat, argc: nat) returns (r: Read<seq<bytes>>)
    requires pos <= |file|
    ensures r == ReadArgs(file[pos..], argc)
  {
    hide ReadArg, ReadArgs;
    var argv: seq<bytes> := [];
    var at: nat := pos;
    var j := 0;
    ResumeNone(ReadArgs(file[pos..], argc));
    while j < argc
      invariant j <= argc && at <= |file|
      invariant ReadArgs(file[pos..], argc) == Resume(argv, ReadArgs(file[at..], argc - j))
    {
      ResumeNext(argv, file[at..], argc - j);
      var arg := LoadArg(file, at);
      match arg
      case Short => return Short;
      case Bad => return Bad;
      case Fatal => return Fatal;
      case Got(a, rest) =>
        argv, at, j := argv + [a], |file| - |rest|, j + 1;
    }
    AllRead(argv, file[at..]);
    r := Got(argv, file[at..]);
  }

  lemma AllRead(argv: seq<bytes>, rest: bytes)
    ensures Resume(argv, ReadArgs(rest, 0)) == Got(argv, rest)
  {
    assert argv + [] == argv;
  }

  /** One turn of the loader's loop, up to the command lookup. */
  method LoadCommand(file: bytes, pos: nat) returns (r: Read<Command>)
    requires pos < |file|
    ensures r == ReadCommand(file[pos..])
    ensures r.Got? ==> |r.rest| < |file| - pos && r.rest == file[|file| - |r.rest|..] && |r.value| > 0
  {
    hide ReadArgs;
    var line := file[pos..];
    ReadShrinks(line);
    var k := LineLength(line, LIMIT);
    if line[0] != STAR {
      return Bad;
    }
    if k == 1 || line[1] == 0 {
      return if HitsEnd(line) then Short else Fatal;
    }
    var argc := ToInt(Atoi(line[1..k]));
    if argc < 1 {
      return Bad;
    }
    assert line[k..] == file[pos + k..];
    r := LoadArgs(file, pos + k, argc);
    if r.Got? {
      ArgsAreSuffix(file, pos + k, argc);
    }
  }

  datatype Loaded = EmptyFile | RdbPreamble | Log(end: End)

  /** loadAppendOnlyFile.  `loadTruncated` is aof-load-truncated; a file that
      starts with an RDB preamble is handed to code outside this model. */
  method LoadAppendOnlyFile(file: bytes, table: bytes -> Kind, loadTruncated: bool)
      returns (r: Loaded, fed: seq<Command>)
    ensures r == EmptyFile <==> file == []
    ensures r == RdbPreamble <==> |file| >= 5 && file[..5] == Ascii("REDIS")
    ensures r.Log? ==>
              var (end, last) := Load(table, file, |file|, START);
              fed == last.fed && r.end == if end.TruncatedAt? && !loadTruncated then Exit else end
  {
    hide ReadCommand;
    fed := [];
    if file == [] {
      return EmptyFile, [];
    }
    if |file| >= 5 && file[..5] == Ascii("REDIS") {
      return RdbPreamble, [];
    }
    var st := START;
    var pos: nat := 0;
    var end: End := Exit;
    assert file[0..] == file;
    while true
      invariant pos <= |file|
      invariant Load(table, file[pos..], |file|, st) == Load(table, file, |file|, START)
      decreases |file| - pos
    {
      if pos == |file| {
        end := if st.inMulti then TruncatedAt(st.beforeMulti) else Whole;
        break;
      }
      var args := LoadCommand(file, pos);
      if args.Short? {
        end := TruncatedAt(st.validUpTo);
        break;
      }
      if args.Bad? {
        end := FormatError;
        break;
      }
      if args.Fatal? {
        break;
      }
      var kind := table(args.value[0]);
      if kind == Unknown {
        break;
      }
      pos := |file| - |args.rest|;
      st := Feed(st, args.value, kind, pos);
    }
    fed := st.fed;
    r := Log(if end.TruncatedAt? && !loadTruncated then Exit else end);
  }

  lemma {:induction false} ArgsAreSuffix(file: bytes, pos: nat, n: nat)
    requires pos <= |file| && ReadArgs(file[pos..], n).Got?
    ensures var rest := ReadArgs(file[pos..], n).rest; |rest| <= |file| - pos && rest == file[|file| - |rest|..]
    decreases n
  {
    if n > 0 {
      var s := file[pos..];
      var k := LineLength(s, LIMIT);
      var len := Atoi(s[1..k]);
      var next := pos + k + len + 2;
      assert s[k..][len + 2..] == file[next..];
      ArgsAreSuffix(file, next, n - 1);
    }
  }
}
