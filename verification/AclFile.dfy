/**
 ACL files (ACLSaveToFile and ACLLoadFromFile in server/src/acl.c): every user
 is written as one line of words and read back through three cuts, into lines,
 into words and at the ends of each word.
 */
module AclFile {
  import opened Options
  import opened Acl
  import opened AclUser

  type Users = map<string, Rights>

  /** A user as it is saved: `others` are the words about its flags, passwords
      and patterns. */
  datatype Entry = Entry(name: string, others: seq<string>, rights: Rights)

  const BLANKS: set<char> := {' ', '\t', '\r', '\n'}
  const RULE_BLANKS: set<char> := {'\t', '\r', '\n'}

  // ------------------------------------------------------------------
  // Words and lines
  // ------------------------------------------------------------------

  /** The words with a blank between two of them. */
  function Join(words: seq<string>): string {
    if words == [] then "" else if |words| == 1 then words[0] else words[0] + " " + Join(words[1..])
  }

  /** sdssplitlen with a separator of one character. */
  function Split(s: string, sep: char): (r: seq<string>)
    ensures r != []
    ensures forall i | 0 <= i < |r| :: sep !in r[i]
  {
    if s == "" then [""]
    else
      var r := Split(s[1..], sep);
      if s[0] == sep then [""] + r else [[s[0]] + r[0]] + r[1..]
  }

  function TrimLeft(s: string, cset: set<char>): string {
    if s != "" && s[0] in cset then TrimLeft(s[1..], cset) else s
  }

  function TrimRight(s: string, cset: set<char>): (r: string)
    ensures r <= s && (r != "" ==> r[|r| - 1] !in cset)
  {
    if s != "" && s[|s| - 1] in cset then TrimRight(s[..|s| - 1], cset) else s
  }

  /** sdstrim */
  function Trim(s: string, cset: set<char>): string {
    TrimRight(TrimLeft(s, cset), cset)
  }

  function TrimAll(words: seq<string>): seq<string> {
    seq(|words|, i requires 0 <= i < |words| => Trim(words[i], RULE_BLANKS))
  }

  lemma {:induction false} SplitFirst(w: string, sep: char, rest: string)
    requires sep !in w
    ensures Split(w, sep) == [w] && Split(w + [sep] + rest, sep) == [w] + Split(rest, sep)
  {
    var s := w + [sep] + rest;
    if w == "" {
      assert s[1..] == rest;
    } else {
      assert s[1..] == w[1..] + [sep] + rest;
      SplitFirst(w[1..], sep, rest);
      assert [w[0]] + w[1..] == w;
      assert ([w[1..]] + Split(rest, sep))[1..] == Split(rest, sep);
    }
  }

  lemma {:induction false} SplitJoin(words: seq<string>)
    requires words != [] && forall i | 0 <= i < |words| :: ' ' !in words[i]
    ensures Split(Join(words), ' ') == words
  {
    if |words| == 1 {
      SplitFirst(words[0], ' ', "");
    } else {
      SplitJoin(words[1..]);
      SplitFirst(words[0], ' ', Join(words[1..]));
    }
  }

  /** What is not in a text is in none of its pieces. */
  lemma {:induction false} SplitAvoids(s: string, sep: char, c: char)
    requires c !in s
    ensures forall i | 0 <= i < |Split(s, sep)| :: c !in Split(s, sep)[i]
  {
    if s != "" {
      SplitAvoids(s[1..], sep, c);
    }
  }

  lemma {:induction false} TrimAvoids(s: string, cset: set<char>, c: char)
    requires c !in s
    ensures c !in Trim(s, cset)
  {
    if s != "" && s[0] in cset {
      TrimAvoids(s[1..], cset, c);
    }
  }

  lemma TrimExact(s: string, cset: set<char>)
    requires s != "" ==> s[0] !in cset && s[|s| - 1] !in cset
    ensures Trim(s, cset) == s
  {
  }

  lemma {:induction false} JoinAvoids(words: seq<string>, c: char)
    requires c != ' ' && forall i | 0 <= i < |words| :: c !in words[i]
    ensures c !in Join(words)
  {
    if |words| > 1 {
      JoinAvoids(words[1..], c);
    }
  }

  lemma {:induction false} JoinEnds(words: seq<string>)
    requires words != [] && words[0] != "" && words[|words| - 1] != ""
    ensures var s, last := Join(words), words[|words| - 1];
            s != "" && s[0] == words[0][0] && s[|s| - 1] == last[|last| - 1]
  {
    if |words| > 1 {
      JoinLast(words[1..]);
    }
  }

  lemma {:induction false} JoinLast(words: seq<string>)
    requires words != [] && words[|words| - 1] != ""
    ensures var s, last := Join(words), words[|words| - 1];
            s != "" && s[|s| - 1] == last[|last| - 1]
  {
    if |words| > 1 {
      JoinLast(words[1..]);
    }
  }

  // ------------------------------------------------------------------
  // Saving and loading
  // ------------------------------------------------------------------

  function Line(t: Table, u: Entry): string
    requires t.bits > 0
  {
    Join(["user", u.name] + u.others + Describe(t, u.rights))
  }

  /** What ACLSaveToFile writes for the users in the order of their tree. */
  function Save(t: Table, users: seq<Entry>): string
    requires t.bits > 0
  {
    if users == [] then "" else Line(t, users[0]) + "\n" + Save(t, users[1..])
  }

  /** How much fgets reads into a buffer for `max` characters. */
  function ChunkLen(s: string, max: nat): (n: nat)
    requires s != "" && max > 0
    ensures 0 < n <= |s| && n <= max
  {
    if s[0] == '\n' || max == 1 || |s| == 1 then 1 else 1 + ChunkLen(s[1..], max - 1)
  }

  const CHUNK: nat := 1023

  /** The loop of fgets and sdscat: each chunk is appended up to its first
      NUL. */
  function ReadText(s: string): (r: string)
    ensures '\0' !in r
    ensures '\0' !in s ==> r == s
  {
    if s == "" then "" else
      var n := ChunkLen(s, CHUNK);
      CText(s[..n]) + ReadText(s[n..])
  }

  /** One line: blank, or a user with all its rules, or an error. */
  function LoadLine(t: Table, users: Users, line: string): Option<Users> {
    var text := Trim(line, BLANKS);
    if text == "" then Some(users)
    else
      var argv := Split(text, ' ');
      if argv[0] != "user" || |argv| < 2 || HasSpaces(argv[1]) then None
      else
        match Replay(t, FRESH, TrimAll(argv[2..]))
        case None => None
        case Some(r) => Some(users[argv[1] := r])
  }

  function LoadLines(t: Table, users: Users, lines: seq<string>): Option<Users>
    decreases |lines|
  {
    if lines == [] then Some(users) else
      match LoadLine(t, users, lines[0])
      case None => None
      case Some(next) => LoadLines(t, next, lines[1..])
  }

  /** ACLInitDefaultUser: the user that is always there. */
  function Initial(t: Table): Users {
    map["default" := Rights(AllBits(t), map[], true)]
  }

  /** ACLLoadFromFile; None when a line is in error and nothing is loaded. */
  function Load(t: Table, content: string): Option<Users> {
    LoadLines(t, Initial(t), Split(ReadText(content), '\n'))
  }

  lemma LoadNext(t: Table, users: Users, line: string, rest: seq<string>)
    ensures LoadLines(t, users, [line] + rest) ==
            match LoadLine(t, users, line)
            case None => None
            case Some(next) => LoadLines(t, next, rest)
  {
    assert ([line] + rest)[1..] == rest;
  }

  // ------------------------------------------------------------------
  // What is saved loads again
  // ------------------------------------------------------------------

  /** A word that all cuts leave alone. */
  predicate Safe(w: string) {
    && w != "" && '\0' !in w && ' ' !in w && '\n' !in w
    && w[0] !in RULE_BLANKS && w[|w| - 1] !in RULE_BLANKS
  }

  predicate AllSafe(words: seq<string>) {
    forall i | 0 <= i < |words| :: Safe(words[i])
  }

  /** A subcommand that survives: no blank or newline in it, no tab or carriage
      return at its end. */
  predicate SafeSub(sub: string) {
    && ' ' !in sub && '\n' !in sub
    && (sub != "" ==> sub[|sub| - 1] != '\t' && sub[|sub| - 1] != '\r')
  }

  ghost predicate SafeRights(r: Rights) {
    forall id | id in r.subs :: forall k | 0 <= k < |r.subs[id]| :: SafeSub(r.subs[id][k])
  }

  lemma SafeName(s: string, name: string)
    requires s != "" && Printable(s) && Printable(name)
    ensures Safe(s + name)
  {
  }

  lemma CategoryPrints(t: Table, j: nat)
    requires Proper(t) && j < |t.categories|
    ensures Printable(t.categories[j].name)
  {
  }

  lemma {:induction false} GreedySafe(t: Table, temp: set<nat>, additive: bool, applied: set<nat>)
    requires Proper(t)
    ensures AllSafe(Greedy(t, temp, additive, applied))
    decreases |Below(|t.categories|) - applied|
  {
    hide Choose, Touched, Below, Safe, SetCategory, Proper;
    var best := Choose(t, temp, additive, applied, |t.categories|).best;
    if best.Some? {
      var c := t.categories[best.value];
      InRange(best.value, |t.categories|);
      Shrinks(Below(|t.categories|), applied, best.value);
      var next := SetCategory(t, Rights(temp, map[], false), c.flag, !additive).bits;
      GreedySafe(t, next, additive, applied + {best.value});
      CategoryPrints(t, best.value);
      SafeName(Sign(additive) + "@", c.name);
    }
  }

  lemma SafeSubRule(name: string, sub: string)
    requires Printable(name) && sub != "" && '\0' !in sub && SafeSub(sub)
    ensures Safe("+" + name + "|" + sub)
  {
    var w := "+" + name + "|" + sub;
    assert w[|w| - 1] == sub[|sub| - 1];
  }

  lemma FixOneSafe(c: Command, r: Rights, fake: set<nat>)
    requires Printable(c.name) && (c.id in r.subs ==> Clean(r.subs[c.id])) && SafeRights(r)
    ensures AllSafe(FixOne(c, r, fake))
  {
    hide Safe, SafeSub;
    SafeName(Sign(c.id in r.bits), c.name);
    if c.id in r.subs {
      forall j | 0 <= j < |r.subs[c.id]| ensures Safe(SubRules(c.name, r.subs[c.id])[j]) {
        SafeSubRule(c.name, r.subs[c.id][j]);
      }
    }
  }

  lemma {:induction false} FixSafe(commands: seq<Command>, r: Rights, fake: set<nat>)
    requires forall i | 0 <= i < |commands| :: Printable(commands[i].name)
    requires (forall id | id in r.subs :: Clean(r.subs[id])) && SafeRights(r)
    ensures AllSafe(FixAll(commands, r, fake))
  {
    hide FixOne, Safe, SafeRights, Clean;
    if commands != [] {
      FixSafe(commands[..|commands| - 1], r, fake);
      FixOneSafe(commands[|commands| - 1], r, fake);
    }
  }

  lemma BaseSafe(plus: bool)
    ensures Safe(Sign(plus) + "@all")
  {
    assert Sign(plus) + "@all" == Sign(plus) + "@" + "all";
    SafeName(Sign(plus) + "@", "all");
  }

  lemma BroadSafe(t: Table, r: Rights)
    requires Proper(t)
    ensures AllSafe(Broad(t, r)) && Broad(t, r) != []
  {
    assert t.bits > 0;
    hide Greedy, Safe, Proper, Additive, Sign;
    GreedySafe(t, r.bits, Additive(t, r), {});
    BaseSafe(!Additive(t, r));
  }

  lemma DescribeSafe(t: Table, r: Rights)
    requires Proper(t) && Tidy(t, r) && SafeRights(r)
    ensures AllSafe(Describe(t, r)) && Describe(t, r) != []
  {
    hide Broad, FixAll, Safe, FakeBits, SafeRights, Clean, SameName;
    BroadSafe(t, r);
    FixSafe(t.commands, r, FakeBits(t, r));
  }

  /** A user as the server keeps it: its name and the other words hold no white
      space, and those words are rules that leave the commands alone. */
  ghost predicate Kept(t: Table, u: Entry) {
    && Tidy(t, u.rights) && !HasSpaces(u.name)
    && forall i | 0 <= i < |u.others| ::
       u.others[i] != "" && !HasSpaces(u.others[i]) && Parse(t, u.others[i]) == Nothing
  }

  predicate SameRights(a: Rights, b: Rights) {
    a.bits == b.bits && a.subs == b.subs
  }

  lemma NoSpaces(s: string)
    requires !HasSpaces(s)
    ensures '\0' !in s && ' ' !in s && '\n' !in s && (s != "" ==> Safe(s))
  {
    forall i | 0 <= i < |s| ensures !Space(s[i]) && s[i] != '\0' {
    }
  }

  lemma WordsSafe(t: Table, u: Entry)
    requires Proper(t) && Kept(t, u) && SafeRights(u.rights)
    ensures AllSafe(u.others + Describe(t, u.rights)) && Describe(t, u.rights) != []
  {
    DescribeSafe(t, u.rights);
    hide Describe, HasSpaces, Parse, Tidy, Proper, SafeRights, Safe;
    forall i | 0 <= i < |u.others| ensures Safe(u.others[i]) {
      NoSpaces(u.others[i]);
    }
  }

  /** A line of safe words comes back as its words. */
  lemma SafeLine(name: string, rules: seq<string>)
    requires !HasSpaces(name) && AllSafe(rules) && rules != []
    ensures var line := Join(["user", name] + rules);
            && '\n' !in line && '\0' !in line && line != "" && Trim(line, BLANKS) == line
            && Split(line, ' ') == ["user", name] + rules
  {
    hide HasSpaces, Split, Trim;
    var words := ["user", name] + rules;
    NoSpaces(name);
    assert Safe("user");
    assert forall i | 0 <= i < |words| :: i == 1 || Safe(words[i]);
    JoinAvoids(words, '\n');
    JoinAvoids(words, '\0');
    SplitJoin(words);
    JoinEnds(words);
    assert words[|words| - 1] == rules[|rules| - 1];
    TrimExact(Join(words), BLANKS);
  }

  /** So does the line of a user with safe rights. */
  lemma LineCuts(t: Table, u: Entry)
    requires Proper(t) && Kept(t, u) && SafeRights(u.rights)
    ensures var line := Line(t, u);
            && '\n' !in line && '\0' !in line && line != "" && Trim(line, BLANKS) == line
            && Split(line, ' ') == ["user", u.name] + (u.others + Describe(t, u.rights))
            && TrimAll(u.others + Describe(t, u.rights)) == u.others + Describe(t, u.rights)
  {
    assert t.bits > 0 && !HasSpaces(u.name);
    hide Describe, HasSpaces, Tidy, Proper, SafeRights, AllSafe, Kept, Split, Trim, Join, TrimAll;
    WordsSafe(t, u);
    var head, rules := ["user", u.name], u.others + Describe(t, u.rights);
    assert head + u.others + Describe(t, u.rights) == head + rules;
    SafeLine(u.name, rules);
    TrimSafe(rules);
  }

  lemma TrimSafe(words: seq<string>)
    requires AllSafe(words)
    ensures TrimAll(words) == words
  {
    forall i | 0 <= i < |words| ensures Trim(words[i], RULE_BLANKS) == words[i] {
      TrimExact(words[i], RULE_BLANKS);
    }
  }

  lemma {:induction false} OthersReplay(t: Table, others: seq<string>, rules: seq<string>)
    requires forall i | 0 <= i < |others| :: Parse(t, others[i]) == Nothing
    ensures Replay(t, FRESH, others + rules) == Replay(t, FRESH, rules)
  {
    if others == [] {
      assert others + rules == rules;
    } else {
      assert (others + rules)[1..] == others[1..] + rules;
      OthersReplay(t, others[1..], rules);
    }
  }

  lemma LineReads(t: Table, users: Users, line: string, name: string, rules: seq<string>)
    requires line != "" && Trim(line, BLANKS) == line && Split(line, ' ') == ["user", name] + rules
    requires !HasSpaces(name) && TrimAll(rules) == rules && Replay(t, FRESH, rules).Some?
    ensures LoadLine(t, users, line) == Some(users[name := Replay(t, FRESH, rules).value])
  {
    hide Replay, Trim, Split, HasSpaces, TrimAll;
    var argv := Split(line, ' ');
    assert argv[2..] == rules;
  }

  lemma WordsReplay(t: Table, u: Entry)
    requires Proper(t) && Kept(t, u)
    ensures var y := Replay(t, FRESH, u.others + Describe(t, u.rights)); y.Some? && SameRights(y.value, u.rights)
  {
    assert t.bits > 0;
    hide Describe, Replay, HasSpaces, Tidy, Proper, Parse;
    DescribeRebuilds(t, u.rights);
    OthersReplay(t, u.others, Describe(t, u.rights));
  }

  lemma LineLoads(t: Table, users: Users, u: Entry)
    requires Proper(t) && Kept(t, u) && SafeRights(u.rights)
    ensures var next := LoadLine(t, users, Line(t, u));
            && next.Some? && next.value.Keys == users.Keys + {u.name} && SameRights(next.value[u.name], u.rights)
            && forall k | k in users && k != u.name :: next.value[k] == users[k]
  {
    assert t.bits > 0 && !HasSpaces(u.name);
    hide Describe, Replay, Trim, Split, Line, HasSpaces, TrimAll, Tidy, Proper, SafeRights, Parse, LoadLine, Kept,
        SameRights;
    LineCuts(t, u);
    WordsReplay(t, u);
    LineReads(t, users, Line(t, u), u.name, u.others + Describe(t, u.rights));
  }

  ghost predicate Distinct(us: seq<Entry>) {
    forall i, j | 0 <= i < j < |us| :: us[i].name != us[j].name
  }

  function Names(us: seq<Entry>): set<string> {
    set i | 0 <= i < |us| :: us[i].name
  }

  /** The users are all there again with their rights. */
  ghost predicate Restores(users: Users, us: seq<Entry>) {
    forall i | 0 <= i < |us| :: us[i].name in users && SameRights(users[us[i].name], us[i].rights)
  }

  /** `m` has the users of `us` besides those of `users`. */
  ghost predicate Adds(users: Users, us: seq<Entry>, m: Users) {
    && m.Keys == users.Keys + Names(us) && Restores(m, us)
    && forall k | k in users && k !in Names(us) :: m[k] == users[k]
  }

  lemma AddsNext(users: Users, next: Users, us: seq<Entry>, m: Users)
    requires us != [] && Distinct(us) && Adds(next, us[1..], m)
    requires next.Keys == users.Keys + {us[0].name} && SameRights(next[us[0].name], us[0].rights)
    requires forall k | k in users && k != us[0].name :: next[k] == users[k]
    ensures Adds(users, us, m)
  {
    NamesNext(us);
    hide Names, Restores, Distinct;
    RestoresNext(m, us);
  }

  lemma {:induction false} SaveNulFree(t: Table, us: seq<Entry>)
    requires Proper(t) && forall i | 0 <= i < |us| :: Kept(t, us[i]) && SafeRights(us[i].rights)
    ensures '\0' !in Save(t, us)
    decreases |us|
  {
    assert t.bits > 0;
    hide Line, Kept, SafeRights, Split, Trim, Proper;
    if us != [] {
      LineCuts(t, us[0]);
      SaveNulFree(t, us[1..]);
    }
  }

  lemma {:induction false} SaveLoads(t: Table, users: Users, us: seq<Entry>)
    requires Proper(t) && Distinct(us)
    requires forall i | 0 <= i < |us| :: Kept(t, us[i]) && SafeRights(us[i].rights)
    ensures var m := LoadLines(t, users, Split(Save(t, us), '\n')); m.Some? && Adds(users, us, m.value)
    decreases |us|
  {
    assert t.bits > 0;
    hide Line, Kept, SafeRights, LoadLine, Split, Trim, Proper, Adds, SameRights, LoadLines;
    if us == [] {
      NothingLeft(t, users);
      NoNames(users);
    } else {
      var line, rest := Line(t, us[0]), Save(t, us[1..]);
      assert '\n' !in line by { LineCuts(t, us[0]); }
      LineLoads(t, users, us[0]);
      var next := LoadLine(t, users, line).value;
      FirstLine(t, users, line, rest);
      assert Distinct(us[1..]);
      SaveLoads(t, next, us[1..]);
      AddsNext(users, next, us, LoadLines(t, next, Split(rest, '\n')).value);
    }
  }

  lemma FirstLine(t: Table, users: Users, line: string, rest: string)
    requires '\n' !in line
    ensures LoadLines(t, users, Split(line + "\n" + rest, '\n')) ==
            match LoadLine(t, users, line)
            case None => None
            case Some(next) => LoadLines(t, next, Split(rest, '\n'))
  {
    hide LoadLine, Split, LoadLines;
    SplitFirst(line, '\n', rest);
    assert ['\n'] == "\n";
    LoadNext(t, users, line, Split(rest, '\n'));
  }

  lemma NoNames(users: Users)
    ensures Adds(users, [], users)
  {
  }

  lemma BlankLine(t: Table, users: Users)
    ensures LoadLine(t, users, "") == Some(users)
  {
  }

  lemma NamesNext(us: seq<Entry>)
    requires us != [] && Distinct(us)
    ensures Names(us) == {us[0].name} + Names(us[1..]) && us[0].name !in Names(us[1..]) && Distinct(us[1..])
  {
    assert us == [us[0]] + us[1..];
  }

  lemma RestoresNext(users: Users, us: seq<Entry>)
    requires us != [] && Restores(users, us[1..])
    requires us[0].name in users && SameRights(users[us[0].name], us[0].rights)
    ensures Restores(users, us)
  {
    assert us == [us[0]] + us[1..];
  }

  // ------------------------------------------------------------------
  // What is loaded is safe
  // ------------------------------------------------------------------

  /** What the three cuts leave of any word. */
  predicate Cut(w: string) {
    '\0' !in w && ' ' !in w && '\n' !in w && (w != "" ==> w[|w| - 1] !in RULE_BLANKS)
  }

  lemma SubOfCut(t: Table, op: string)
    requires Cut(op) && op != "" && ParseAllow(t, op).Sub?
    ensures SafeSub(ParseAllow(t, op).sub)
  {
    hide FindCommand, Bar;
    var sub := ParseAllow(t, op).sub;
    assert sub == op[|op| - |sub|..] && sub != "";
  }

  lemma ApplySafe(t: Table, r: Rights, rule: Rule)
    requires SafeRights(r) && rule != Unknown && (rule.Sub? ==> SafeSub(rule.sub))
    ensures SafeRights(Apply(t, r, rule))
  {
    hide SafeSub, SameName, Touched, AllBits;
  }

  lemma CutText(op: string)
    requires Cut(op)
    ensures CText(op) == op
  {
  }

  lemma SetUserSafe(t: Table, r: Rights, op: string)
    requires SafeRights(r) && Cut(op)
    ensures SetUser(t, r, op).Some? ==> SafeRights(SetUser(t, r, op).value)
  {
    hide FindCommand, FindCategory, SameName, Elsewhere, ParseAllow, SafeRights, SafeSub, Cut, Apply, CText;
    CutText(op);
    var rule := Parse(t, op);
    if rule.Sub? {
      SubOfCut(t, op);
    }
    if rule != Unknown {
      ApplySafe(t, r, rule);
    }
  }

  lemma {:induction false} ReplaySafe(t: Table, r: Rights, ops: seq<string>)
    requires SafeRights(r) && forall i | 0 <= i < |ops| :: Cut(ops[i])
    ensures Replay(t, r, ops).Some? ==> SafeRights(Replay(t, r, ops).value)
    decreases |ops|
  {
    hide SetUser, SafeRights, Cut;
    if ops != [] {
      SetUserSafe(t, r, ops[0]);
      if SetUser(t, r, ops[0]).Some? {
        ReplaySafe(t, SetUser(t, r, ops[0]).value, ops[1..]);
      }
    }
  }

  ghost predicate SafeUsers(users: Users) {
    forall k | k in users :: SafeRights(users[k])
  }

  lemma LoadLineSafe(t: Table, users: Users, line: string)
    requires SafeUsers(users) && '\n' !in line && '\0' !in line
    ensures LoadLine(t, users, line).Some? ==> SafeUsers(LoadLine(t, users, line).value)
  {
    hide SafeRights, Replay, Split, Trim;
    var text := Trim(line, BLANKS);
    TrimAvoids(line, BLANKS, '\n');
    TrimAvoids(line, BLANKS, '\0');
    SplitAvoids(text, ' ', '\n');
    SplitAvoids(text, ' ', '\0');
    var argv := Split(text, ' ');
    if |argv| >= 2 {
      var words := argv[2..];
      forall i | 0 <= i < |words| ensures Cut(TrimAll(words)[i]) {
        assert words[i] == argv[i + 2];
        TrimAvoids(words[i], RULE_BLANKS, '\n');
        TrimAvoids(words[i], RULE_BLANKS, '\0');
        TrimAvoids(words[i], RULE_BLANKS, ' ');
        TrimmedEnd(words[i]);
      }
      assert SafeRights(FRESH) by { FreshSafe(); }
      ReplaySafe(t, FRESH, TrimAll(words));
    }
  }

  lemma TrimmedEnd(w: string)
    ensures var x := Trim(w, RULE_BLANKS); x != "" ==> x[|x| - 1] !in RULE_BLANKS
  {
  }

  lemma FreshSafe()
    ensures SafeRights(FRESH)
  {
  }

  lemma {:induction false} LoadLinesSafe(t: Table, users: Users, lines: seq<string>)
    requires SafeUsers(users) && forall i | 0 <= i < |lines| :: '\n' !in lines[i] && '\0' !in lines[i]
    ensures LoadLines(t, users, lines).Some? ==> SafeUsers(LoadLines(t, users, lines).value)
    decreases |lines|
  {
    hide SafeUsers, LoadLine;
    if lines != [] {
      LoadLineSafe(t, users, lines[0]);
      if LoadLine(t, users, lines[0]).Some? {
        LoadLinesSafe(t, LoadLine(t, users, lines[0]).value, lines[1..]);
      }
    }
  }

  /** Whatever an ACL file holds, no user loaded from it has a subcommand with a
      blank or a newline, or one that ends in a tab or a carriage return. */
  lemma LoadedSafe(t: Table, content: string)
    ensures Load(t, content).Some? ==> SafeUsers(Load(t, content).value)
  {
    SplitAvoids(ReadText(content), '\n', '\0');
    LoadLinesSafe(t, Initial(t), Split(ReadText(content), '\n'));
  }

  // ------------------------------------------------------------------
  // The round trip through a file
  // ------------------------------------------------------------------

  /** Saved and loaded again, the users all have their rights back exactly when
      no subcommand has a blank or a newline in it or ends in a tab or a carriage
      return. */
  lemma FileRoundTripIff(t: Table, us: seq<Entry>)
    requires Proper(t) && Distinct(us) && forall i | 0 <= i < |us| :: Kept(t, us[i])
    ensures var m := Load(t, Save(t, us));
            && (m.Some? && m.value.Keys == {"default"} + Names(us) && Restores(m.value, us) <==>
                forall i | 0 <= i < |us| :: SafeRights(us[i].rights))
  {
    hide Kept, Save, LoadLines, Split, SafeRights;
    var m := Load(t, Save(t, us));
    if forall i | 0 <= i < |us| :: SafeRights(us[i].rights) {
      SaveNulFree(t, us);
      SaveLoads(t, Initial(t), us);
    }
    if m.Some? && Restores(m.value, us) {
      LoadedSafe(t, Save(t, us));
      forall i | 0 <= i < |us| ensures SafeRights(us[i].rights) {
        SameSafe(m.value[us[i].name], us[i].rights);
      }
    }
  }

  lemma SameSafe(a: Rights, b: Rights)
    requires SameRights(a, b) && SafeRights(a)
    ensures SafeRights(b)
  {
  }

  // ------------------------------------------------------------------
  // Two subcommands that do not survive
  // ------------------------------------------------------------------

  lemma {:induction false} NoneOn(commands: seq<Command>, flag: nat)
    ensures CountBits(commands, {}, flag, true) == 0
  {
    if commands != [] {
      NoneOn(commands[..|commands| - 1], flag);
    }
  }

  lemma {:induction false} NoChoice(t: Table, n: nat)
    requires n <= |t.categories|
    ensures Choose(t, {}, true, {}, n).best == None
  {
    if n > 0 {
      NoChoice(t, n - 1);
      NoneOn(t.commands, t.categories[n - 1].flag);
    }
  }

  function OneSub(id: nat, sub: string): Rights {
    Rights({}, map[id := [sub]], false)
  }

  function SubRule(t: Table, i: nat, sub: string): string
    requires i < |t.commands|
  {
    "+" + t.commands[i].name + "|" + sub
  }

  lemma OneFixOne(c: Command, id: nat, sub: string)
    ensures FixOne(c, OneSub(id, sub), {}) == if c.id == id then ["+" + c.name + "|" + sub] else []
  {
    if c.id == id {
      assert SubRules(c.name, [sub]) == ["+" + c.name + "|" + sub];
    }
  }

  lemma IdsDiffer(t: Table, i: nat, j: nat)
    requires Proper(t) && i < |t.commands| && j < |t.commands|
    ensures t.commands[i].id == t.commands[j].id <==> i == j
  {
  }

  lemma {:induction false} OneFix(t: Table, i: nat, sub: string, n: nat)
    requires Proper(t) && i < |t.commands| && n <= |t.commands|
    ensures FixAll(t.commands[..n], OneSub(t.commands[i].id, sub), {}) == if i < n then [SubRule(t, i, sub)] else []
  {
    hide Proper, FixOne, OneSub;
    if n > 0 {
      OneFix(t, i, sub, n - 1);
      assert t.commands[..n][..n - 1] == t.commands[..n - 1];
      OneFixOne(t.commands[n - 1], t.commands[i].id, sub);
      IdsDiffer(t, i, n - 1);
    }
  }

  lemma OneReplayed(t: Table, i: nat, sub: string)
    requires Proper(t) && i < |t.commands| && sub != "" && '\0' !in sub
    ensures Replay(t, FRESH, ["-@all"]) == Some(FRESH)
    ensures Replay(t, FRESH, [SubRule(t, i, sub)]) == Some(OneSub(t.commands[i].id, sub))
    ensures Replay(t, FRESH, ["-@all", SubRule(t, i, sub)]) == Some(OneSub(t.commands[i].id, sub))
  {
    hide Proper, Parse, SameName;
    assert Sign(false) + "@all" == "-@all";
    ParseEverything(t, false);
    ParseSub(t, i, sub);
    hide SubRule;
    ReplayOne(t, FRESH, "-@all");
    ReplayOne(t, FRESH, SubRule(t, i, sub));
    assert SubsOf(FRESH, t.commands[i].id) + [sub] == [sub];
    assert AddSub(FRESH, t.commands[i].id, sub).subs == map[t.commands[i].id := [sub]];
    hide Replay;
    assert ["-@all"] + [SubRule(t, i, sub)] == ["-@all", SubRule(t, i, sub)];
    ReplayAppend(t, FRESH, ["-@all"], [SubRule(t, i, sub)]);
  }

  lemma OneBroad(t: Table, r: Rights)
    requires t.bits > 0 && r.bits == {}
    ensures Broad(t, r) == ["-@all"]
  {
    NoChoice(t, |t.categories|);
    hide Choose;
    assert Greedy(t, {}, true, {}) == [];
    assert Sign(false) + "@all" == "-@all";
  }

  /** How a user with nothing but one subcommand is described. */
  lemma OneDescribed(t: Table, i: nat, sub: string)
    requires Proper(t) && i < |t.commands| && sub != "" && '\0' !in sub
    ensures t.bits > 0 && Describe(t, OneSub(t.commands[i].id, sub)) == ["-@all", SubRule(t, i, sub)]
  {
    assert t.bits > 0;
    var r := OneSub(t.commands[i].id, sub);
    OneBroad(t, r);
    OneReplayed(t, i, sub);
    OneFix(t, i, sub, |t.commands|);
    assert t.commands[..|t.commands|] == t.commands;
    hide Proper, Replay, Broad, FixAll, SubRule, OneSub;
  }

  /** The line of such a user, up to what follows `+debug|x`. */
  function OneLine(t: Table, i: nat): string
    requires i < |t.commands|
  {
    Join(["user", "u"] + ["-@all", SubRule(t, i, "x")])
  }

  lemma OneLineIs(t: Table, i: nat, tail: string)
    requires Proper(t) && i < |t.commands| && '\0' !in tail
    ensures t.bits > 0 && Line(t, Entry("u", [], OneSub(t.commands[i].id, "x" + tail))) == OneLine(t, i) + tail
  {
    OneDescribed(t, i, "x" + tail);
    assert SubRule(t, i, "x") + tail == SubRule(t, i, "x" + tail);
    hide Proper, Describe, Join, Replay, SubRule;
    WordsTail(["user", "u"], "-@all", SubRule(t, i, "x"), tail);
  }

  lemma WordsTail(head: seq<string>, base: string, rule: string, tail: string)
    ensures Join(head + [] + [base, rule + tail]) == Join(head + [base, rule]) + tail
  {
    var words := head + [base, rule];
    JoinTail(words, tail);
    assert head + [] + [base, rule + tail] == words[|words| - 1 := rule + tail];
  }

  lemma {:induction false} JoinTail(words: seq<string>, tail: string)
    requires words != []
    ensures var n := |words| - 1; Join(words[n := words[n] + tail]) == Join(words) + tail
  {
    var n := |words| - 1;
    if n > 0 {
      JoinTail(words[1..], tail);
      assert words[n := words[n] + tail][1..] == words[1..][n - 1 := words[n] + tail];
    }
  }

  lemma SafeOne(t: Table, i: nat)
    requires Proper(t) && i < |t.commands|
    ensures Safe(SubRule(t, i, "x")) && Safe("-@all")
  {
    SafeSubRule(t.commands[i].name, "x");
  }

  lemma OneRules(t: Table, i: nat)
    requires Proper(t) && i < |t.commands|
    ensures var rules := ["-@all", SubRule(t, i, "x")];
            AllSafe(rules) && TrimAll(rules) == rules && Replay(t, FRESH, rules) == Some(OneSub(t.commands[i].id, "x"))
  {
    OneReplayed(t, i, "x");
    SafeOne(t, i);
    hide Safe, SubRule, Replay, Proper, TrimAll, OneSub;
    assert AllSafe(["-@all", SubRule(t, i, "x")]);
    TrimSafe(["-@all", SubRule(t, i, "x")]);
  }

  lemma OneLineLoads(t: Table, users: Users, i: nat)
    requires Proper(t) && i < |t.commands|
    ensures var line := OneLine(t, i);
            && '\n' !in line && '\0' !in line && line != "" && Trim(line, BLANKS) == line
            && LoadLine(t, users, line) == Some(users["u" := OneSub(t.commands[i].id, "x")])
  {
    hide Proper, Replay, AllSafe, TrimAll, LoadLine, Split, Trim, HasSpaces, SubRule;
    OneRules(t, i);
    NoSpacesInU();
    SafeLine("u", ["-@all", SubRule(t, i, "x")]);
    LineReads(t, users, OneLine(t, i), "u", ["-@all", SubRule(t, i, "x")]);
  }

  lemma NoSpacesInU()
    ensures !HasSpaces("u")
  {
  }

  /** A file with that user alone. */
  function OneFile(t: Table, i: nat, sub: string): string
    requires t.bits > 0 && i < |t.commands|
  {
    Save(t, [Entry("u", [], OneSub(t.commands[i].id, sub))])
  }

  lemma OneFileIs(t: Table, i: nat, tail: string)
    requires Proper(t) && i < |t.commands| && '\0' !in tail
    ensures t.bits > 0 && OneFile(t, i, "x" + tail) == OneLine(t, i) + tail + "\n"
  {
    OneLineIs(t, i, tail);
    hide Proper, Line, OneLine;
    var u := Entry("u", [], OneSub(t.commands[i].id, "x" + tail));
    assert Save(t, [u]) == Line(t, u) + "\n" + Save(t, []) by {
      assert [u][1..] == [];
    }
  }

  lemma LoadText(t: Table, content: string)
    requires '\0' !in content
    ensures Load(t, content) == LoadLines(t, Initial(t), Split(content, '\n'))
  {
  }

  /** `+debug|x` with a tab behind it is accepted and saved, and loaded as
      `+debug|x`. */
  lemma TabIsLost(t: Table, i: nat)
    requires Proper(t) && i < |t.commands|
    ensures var id := t.commands[i].id;
            && Replay(t, FRESH, [SubRule(t, i, "x\t")]) == Some(OneSub(id, "x\t"))
            && t.bits > 0 && Load(t, OneFile(t, i, "x\t")) == Some(Initial(t)["u" := OneSub(id, "x")])
  {
    hide Proper, LoadLine, LoadLines, Split, OneLine, HasSpaces, Replay, Trim, SubRule, OneFile, Load;
    assert "x" + "\t" == "x\t";
    OneReplayed(t, i, "x\t");
    OneFileIs(t, i, "\t");
    OneLineLoads(t, Initial(t), i);
    var line := OneLine(t, i);
    LoadText(t, line + "\t" + "\n");
    assert line + "\t" + "\n" == line + "\t" + "\n" + "";
    FirstLine(t, Initial(t), line + "\t", "");
    TabTrimmed(t, Initial(t), line);
    NothingLeft(t, LoadLine(t, Initial(t), line).value);
  }

  lemma TabTrimmed(t: Table, users: Users, line: string)
    requires line != "" && Trim(line, BLANKS) == line
    ensures LoadLine(t, users, line + "\t") == LoadLine(t, users, line)
  {
    TrimmedStart(line, BLANKS);
    var longer := line + "\t";
    assert longer[0] == line[0] && longer[..|longer| - 1] == line;
    assert TrimLeft(longer, BLANKS) == longer;
    assert TrimRight(longer, BLANKS) == TrimRight(line, BLANKS);
  }

  lemma {:induction false} TrimmedStart(s: string, cset: set<char>)
    requires s != "" && Trim(s, cset) == s
    ensures s[0] !in cset && s[|s| - 1] !in cset
  {
    TrimShorter(s, cset);
  }

  lemma {:induction false} TrimShorter(s: string, cset: set<char>)
    ensures |TrimLeft(s, cset)| <= |s| && (s != "" && s[0] in cset ==> |TrimLeft(s, cset)| < |s|)
  {
    if s != "" && s[0] in cset {
      TrimShorter(s[1..], cset);
    }
  }

  lemma NothingLeft(t: Table, users: Users)
    ensures LoadLines(t, users, Split("", '\n')) == Some(users)
  {
    LoadNext(t, users, "", []);
    BlankLine(t, users);
  }

  lemma TornFile(t: Table, line: string, content: string)
    requires '\n' !in line && '\0' !in line && LoadLine(t, Initial(t), line).Some?
    requires content == line + "\ny" + "\n"
    ensures Load(t, content) == None
  {
    hide LoadLine, LoadLines, Split, Load;
    var rest := "y" + "\n" + "";
    LoadText(t, content);
    assert content == line + "\n" + rest;
    FirstLine(t, Initial(t), line, rest);
    var next := LoadLine(t, Initial(t), line).value;
    FirstLine(t, next, "y", "");
    NoUser(t, next);
  }

  /** A newline in a subcommand tears the line: the file is refused and no user
      of it is loaded. */
  lemma NewlineRefused(t: Table, i: nat)
    requires Proper(t) && i < |t.commands|
    ensures Replay(t, FRESH, [SubRule(t, i, "x\ny")]) == Some(OneSub(t.commands[i].id, "x\ny"))
    ensures t.bits > 0 && Load(t, OneFile(t, i, "x\ny")) == None
  {
    OneReplayed(t, i, "x\ny");
    assert "x" + "\ny" == "x\ny";
    OneFileIs(t, i, "\ny");
    OneLineLoads(t, Initial(t), i);
    hide Proper, LoadLine, OneLine, HasSpaces, Replay, Trim, SubRule, OneFile, Load;
    TornFile(t, OneLine(t, i), OneFile(t, i, "x\ny"));
  }

  lemma NoUser(t: Table, users: Users)
    ensures LoadLine(t, users, "y") == None
  {
    SplitFirst("y", ' ', "");
    TrimExact("y", BLANKS);
  }

  // ------------------------------------------------------------------
  // The loader as it runs
  // ------------------------------------------------------------------

  lemma {:induction false} ReplayNext(t: Table, r: Rights, ops: seq<string>, op: string)
    ensures Replay(t, r, ops + [op]) ==
            match Replay(t, r, ops)
            case None => None
            case Some(y) => SetUser(t, y, op)
    decreases |ops|
  {
    hide SetUser;
    if ops == [] {
      assert ops + [op] == [op];
      ReplayOne(t, r, op);
    } else {
      assert (ops + [op])[1..] == ops[1..] + [op];
      if SetUser(t, r, ops[0]).Some? {
        ReplayNext(t, SetUser(t, r, ops[0]).value, ops[1..], op);
      }
    }
  }

  lemma {:induction false} LoadLast(t: Table, users: Users, lines: seq<string>, line: string)
    ensures LoadLines(t, users, lines + [line]) ==
            match LoadLines(t, users, lines)
            case None => None
            case Some(next) => LoadLine(t, next, line)
    decreases |lines|
  {
    hide LoadLine;
    if lines == [] {
      assert lines + [line] == [line];
      LoadNext(t, users, line, []);
    } else {
      assert (lines + [line])[1..] == lines[1..] + [line];
      if LoadLine(t, users, lines[0]).Some? {
        LoadLast(t, LoadLine(t, users, lines[0]).value, lines[1..], line);
      }
    }
  }

  lemma ResetRule(t: Table, r: Rights)
    ensures SetUser(t, r, "reset") == Some(FRESH)
  {
    hide FindCommand, FindCategory, ParseAllow, ParseDeny, Elsewhere, SameName;
    assert CText("reset") == "reset";
    NotSame("reset", "allcommands", 0);
    NotSame("reset", "+@all", 0);
    NotSame("reset", "nocommands", 0);
    NotSame("reset", "-@all", 0);
    SameSelf("reset");
  }

  /** The loop over the words of a line: an error does not end it. */
  method ApplyRules(t: Table, u: User, words: seq<string>) returns (ok: bool)
    requires Proper(t) && 8 * u.bitmap.Length == t.bits && u.View() == FRESH
    modifies u, u.bitmap
    ensures ok == Replay(t, FRESH, TrimAll(words)).Some?
    ensures ok ==> u.View() == Replay(t, FRESH, TrimAll(words)).value
  {
    hide Replay, SetUser, Trim;
    ok := true;
    assert TrimAll(words[..0]) == [] && Replay(t, FRESH, []) == Some(FRESH) by { NoRules(t); }
    for j := 0 to |words|
      invariant ok == Replay(t, FRESH, TrimAll(words[..j])).Some?
      invariant ok ==> u.View() == Replay(t, FRESH, TrimAll(words[..j])).value
    {
      assert TrimAll(words[..j + 1]) == TrimAll(words[..j]) + [Trim(words[j], RULE_BLANKS)];
      ReplayNext(t, FRESH, TrimAll(words[..j]), Trim(words[j], RULE_BLANKS));
      var accepted := u.SetUser(t, Trim(words[j], RULE_BLANKS));
      ok := ok && accepted;
    }
    assert words[..|words|] == words;
  }

  lemma NoRules(t: Table)
    ensures Replay(t, FRESH, []) == Some(FRESH)
  {
  }

  /** ACLLoadFromFile: every line is tried on a fake user first; after an error
      no user is changed, and nothing is loaded in the end. */
  method LoadFromFile(t: Table, content: string) returns (loaded: Option<Users>)
    requires Proper(t) && t.bits % 8 == 0
    ensures loaded == Load(t, content)
  {
    hide Proper, Replay, LoadLines, Trim, Split, HasSpaces, TrimAll, ReadText;
    var lines := Split(ReadText(content), '\n');
    var fake := new User(t.bits / 8);
    var users, errors := Initial(t), false;
    NoLines(t, Initial(t));
    for i := 0 to |lines|
      invariant fresh(fake) && fresh(fake.bitmap)
      invariant LoadLines(t, Initial(t), lines[..i]) == if errors then None else Some(users)
    {
      assert lines[..i + 1] == lines[..i] + [lines[i]];
      LoadLast(t, Initial(t), lines[..i], lines[i]);
      var line := Trim(lines[i], BLANKS);
      if line == "" {
        continue;
      }
      var argv := Split(line, ' ');
      if argv[0] != "user" || |argv| < 2 || HasSpaces(argv[1]) {
        errors := true;
        continue;
      }
      ResetRule(t, fake.View());
      var done := fake.SetUser(t, "reset");
      var ok := ApplyRules(t, fake, argv[2..]);
      if !ok {
        errors := true;
      }
      if errors {
        continue;
      }
      var u := new User(t.bits / 8);
      ok := ApplyRules(t, u, argv[2..]);
      assert ok;
      users := users[argv[1] := u.View()];
    }
    assert lines[..|lines|] == lines;
    loaded := if errors then None else Some(users);
  }

  lemma NoLines(t: Table, users: Users)
    ensures LoadLines(t, users, []) == Some(users)
  {
  }
}
