/**
 Command rules of ACL users (acl.c): ACLSetUser interprets a rule,
 ACLDescribeUserCommandRules compiles a user's bitmap and subcommand lists into
 rules that rebuild them.
 */
module Acl {
  import opened Options

  /** `flags` are the categories of the command. */
  datatype Command = Command(name: string, id: nat, flags: set<nat>, isModule: bool, noAuth: bool)

  datatype Category = Category(name: string, flag: nat)

  /** The original command table in the order its dictionary is walked, the
      category table, and the number of bits of a user's bitmap, the last of
      which is reserved. */
  datatype Table = Table(commands: seq<Command>, categories: seq<Category>, bits: nat)

  /** What a user may run: the bitmap as a set of ids, the subcommands allowed
      of commands whose bit is not set, and the ALLCOMMANDS flag. */
  datatype Rights = Rights(bits: set<nat>, subs: map<nat, seq<string>>, all: bool)

  // ------------------------------------------------------------------
  // Names
  // ------------------------------------------------------------------

  function LowerChar(c: char): char {
    if 'A' <= c <= 'Z' then (c as int + 32) as char else c
  }

  function Lower(s: string): (r: string)
    ensures |r| == |s| && forall i | 0 <= i < |s| :: r[i] == LowerChar(s[i])
  {
    seq(|s|, i requires 0 <= i < |s| => LowerChar(s[i]))
  }

  /** strcasecmp */
  predicate SameName(a: string, b: string) {
    Lower(a) == Lower(b)
  }

  /** ACLLookupCommand */
  function FindCommand(commands: seq<Command>, name: string): (r: Option<Command>)
    ensures r.Some? ==> r.value in commands && SameName(r.value.name, name)
  {
    if commands == [] then None
    else if SameName(commands[0].name, name) then Some(commands[0])
    else FindCommand(commands[1..], name)
  }

  /** ACLGetCommandCategoryFlagByName */
  function FindCategory(categories: seq<Category>, name: string): Option<nat> {
    if categories == [] then None
    else if SameName(categories[0].name, name) then Some(categories[0].flag)
    else FindCategory(categories[1..], name)
  }

  /** What the system writes into names: none of the characters that end a
      string, a line or a word. */
  predicate Printable(s: string) {
    forall i | 0 <= i < |s| :: s[i] !in {'\0', ' ', '\t', '\r', '\n'}
  }

  predicate PlainName(s: string) {
    s != "" && s[0] != '@' && '|' !in s && Printable(s)
  }

  /** Distinct names, distinct ids below the reserved bit. */
  predicate Proper(t: Table) {
    && t.bits > 0
    && (forall i | 0 <= i < |t.commands| :: t.commands[i].id < t.bits - 1 && PlainName(t.commands[i].name))
    && (forall i, j | 0 <= i < j < |t.commands| ::
          t.commands[i].id != t.commands[j].id && !SameName(t.commands[i].name, t.commands[j].name))
    && (forall i, j | 0 <= i < j < |t.categories| :: !SameName(t.categories[i].name, t.categories[j].name))
    && (forall i | 0 <= i < |t.categories| :: !SameName(t.categories[i].name, "all") && Printable(t.categories[i].name))
  }

  function Ids(t: Table): set<nat> {
    set i | 0 <= i < |t.commands| :: t.commands[i].id
  }

  function Below(n: nat): (s: set<nat>)
    ensures forall id: nat :: id in s <==> id < n
  {
    if n == 0 then {} else Below(n - 1) + {n - 1}
  }

  function AllBits(t: Table): set<nat> {
    Below(t.bits)
  }

  /** The ids a category rule touches: modules' commands are skipped. */
  function Touched(t: Table, flag: nat): set<nat> {
    set i | 0 <= i < |t.commands| && flag in t.commands[i].flags && !t.commands[i].isModule :: t.commands[i].id
  }

  // ------------------------------------------------------------------
  // ACLSetUser
  // ------------------------------------------------------------------

  /** ACLSetUserCommandBit and ACLResetSubcommandsForCommand. */
  function SetOne(r: Rights, id: nat, value: bool): Rights {
    Rights(if value then r.bits + {id} else r.bits - {id}, r.subs - {id}, r.all && value)
  }

  /** ACLSetUserCommandBitsForCategory */
  function SetCategory(t: Table, r: Rights, flag: nat, value: bool): Rights {
    var ids := Touched(t, flag);
    Rights(if value then r.bits + ids else r.bits - ids, r.subs - ids, r.all && (value || ids == {}))
  }

  function SubsOf(r: Rights, id: nat): seq<string> {
    if id in r.subs then r.subs[id] else []
  }

  predicate Has(subs: seq<string>, sub: string) {
    exists i :: 0 <= i < |subs| && SameName(subs[i], sub)
  }

  /** ACLAddAllowedSubcommand */
  function AddSub(r: Rights, id: nat, sub: string): Rights {
    if Has(SubsOf(r, id), sub) then r else r.(subs := r.subs[id := SubsOf(r, id) + [sub]])
  }

  /** The position of the first '|'. */
  function Bar(s: string): (k: nat)
    ensures k <= |s| && (k < |s| ==> s[k] == '|') && forall i | 0 <= i < k :: s[i] != '|'
  {
    if s == "" || s[0] == '|' then 0 else 1 + Bar(s[1..])
  }

  /** What a rule asks for: nothing about commands, all or none of them, one
      command, a subcommand of one, a category, or something unknown. */
  datatype Rule = Nothing | Every | NoCommand | One(id: nat, value: bool) | Sub(id: nat, sub: string)
                | Group(flag: nat, value: bool) | Unknown

  function ParseAllow(t: Table, op: string): (r: Rule)
    requires op != ""
    ensures r.One? || r.Sub? || r.Unknown?
  {
    if '|' !in op then
      match FindCommand(t.commands, op[1..])
      case None => Unknown
      case Some(c) => One(c.id, true)
    else
      var k := Bar(op[1..]);
      match FindCommand(t.commands, op[1..][..k])
      case None => Unknown
      case Some(c) => if k + 2 >= |op| then Unknown else Sub(c.id, op[k + 2..])
  }

  function ParseDeny(t: Table, op: string): Rule
    requires op != ""
  {
    match FindCommand(t.commands, op[1..])
    case None => Unknown
    case Some(c) => One(c.id, false)
  }

  /** What a function of C strings sees: the text before the first NUL. */
  function CText(s: string): (r: string)
    ensures '\0' !in r && r <= s
    ensures '\0' !in s ==> r == s
  {
    if s == "" || s[0] == '\0' then "" else [s[0]] + CText(s[1..])
  }

  /** isspace */
  predicate Space(c: char) {
    c == ' ' || '\t' <= c <= '\r'
  }

  /** ACLStringHasSpaces */
  predicate HasSpaces(s: string) {
    exists i :: 0 <= i < |s| && (Space(s[i]) || s[i] == '\0')
  }

  const HASH_PASSWORD_LEN: nat := 64

  /** ACLCheckPasswordHash */
  predicate IsHash(s: string) {
    |s| == HASH_PASSWORD_LEN && forall i | 0 <= i < |s| :: 'a' <= s[i] <= 'f' || '0' <= s[i] <= '9'
  }

  /** The rules about flags, passwords, keys and channels that are well formed.
      Whether a user takes one can also depend on the passwords and patterns it
      has, which are not part of this model. */
  predicate Elsewhere(op: string)
    requires op != ""
  {
    var text := CText(op);
    || SameName(text, "on") || SameName(text, "off")
    || SameName(text, "skip-sanitize-payload") || SameName(text, "sanitize-payload")
    || SameName(text, "allkeys") || SameName(text, "resetkeys")
    || SameName(text, "allchannels") || SameName(text, "resetchannels")
    || SameName(text, "nopass") || SameName(text, "resetpass")
    || op[0] == '>' || op[0] == '<'
    || (op[0] in {'#', '!'} && IsHash(op[1..]))
    || (op[0] in {'~', '&'} && !HasSpaces(op[1..]))
  }

  /** The tests of ACLSetUser, in its order, on the C string of a rule; rules
      that have nothing to do with commands come last. */
  function ParseText(t: Table, op: string): Rule {
    if op == "" then Nothing
    else if SameName(op, "allcommands") || SameName(op, "+@all") then Every
    else if SameName(op, "nocommands") || SameName(op, "-@all") then NoCommand
    else if op[0] == '+' && !(|op| > 1 && op[1] == '@') then ParseAllow(t, op)
    else if op[0] == '-' && !(|op| > 1 && op[1] == '@') then ParseDeny(t, op)
    else if op[0] == '+' || op[0] == '-' then
      match FindCategory(t.categories, op[2..])
      case None => Unknown
      case Some(flag) => Group(flag, op[0] == '+')
    else if SameName(op, "reset") then NoCommand
    else Nothing
  }

  function Parse(t: Table, op: string): Rule {
    var rule := ParseText(t, CText(op));
    if op != "" && rule == Nothing && !Elsewhere(op) then Unknown else rule
  }

  function Apply(t: Table, r: Rights, rule: Rule): Rights
    requires rule != Unknown
  {
    match rule
    case Nothing => r
    case Every => Rights(AllBits(t), map[], true)
    case NoCommand => Rights({}, map[], false)
    case One(id, value) => SetOne(r, id, value)
    case Sub(id, sub) => if id in r.bits then r else AddSub(r, id, sub)
    case Group(flag, value) => SetCategory(t, r, flag, value)
  }

  /** ACLSetUser as far as commands go; None is C_ERR. */
  function SetUser(t: Table, r: Rights, op: string): Option<Rights> {
    var rule := Parse(t, op);
    if rule == Unknown then None else Some(Apply(t, r, rule))
  }

  /** A user just created, and the effect of a list of rules that are all
      accepted. */
  const FRESH: Rights := Rights({}, map[], false)

  function Replay(t: Table, r: Rights, ops: seq<string>): Option<Rights>
    decreases |ops|
  {
    if ops == [] then Some(r) else
      match SetUser(t, r, ops[0])
      case None => None
      case Some(next) => Replay(t, next, ops[1..])
  }

  // ------------------------------------------------------------------
  // Users as ACLSetUser leaves them
  // ------------------------------------------------------------------

  /** Bits that are no command's follow the reserved bit; a subcommand list
      belongs to a command whose bit is not set, and has no name twice; with the
      ALLCOMMANDS flag every bit is set. */
  ghost predicate Tidy(t: Table, r: Rights) {
    && r.bits <= AllBits(t)
    && (forall id: nat | id < t.bits && id !in Ids(t) :: id in r.bits <==> t.bits - 1 in r.bits)
    && (forall id | id in r.subs :: id in Ids(t) && id !in r.bits && r.subs[id] != [] && Clean(r.subs[id]))
    && (r.all ==> r.bits == AllBits(t))
  }

  ghost predicate Clean(subs: seq<string>) {
    && (forall i | 0 <= i < |subs| :: subs[i] != "" && '\0' !in subs[i])
    && (forall i, j | 0 <= i < j < |subs| :: !SameName(subs[i], subs[j]))
  }

  lemma TouchedIds(t: Table, flag: nat)
    requires Proper(t)
    ensures Touched(t, flag) <= Ids(t) && Ids(t) <= AllBits(t) && t.bits - 1 !in Ids(t)
  {
  }

  lemma FoundId(t: Table, name: string)
    requires Proper(t)
    ensures FindCommand(t.commands, name).Some? ==> FindCommand(t.commands, name).value.id in Ids(t)
  {
    var f := FindCommand(t.commands, name);
    if f.Some? {
      var i :| 0 <= i < |t.commands| && t.commands[i] == f.value;
    }
  }

  lemma SetOneTidy(t: Table, r: Rights, id: nat, value: bool)
    requires Proper(t) && Tidy(t, r) && id in Ids(t)
    ensures Tidy(t, SetOne(r, id, value))
  {
    TouchedIds(t, 0);
    if value && r.all {
      assert r.bits + {id} == r.bits;
    }
  }

  lemma SetCategoryTidy(t: Table, r: Rights, flag: nat, value: bool)
    requires Proper(t) && Tidy(t, r)
    ensures Tidy(t, SetCategory(t, r, flag, value))
  {
    TouchedIds(t, flag);
    hide Touched, Ids;
    var ids := Touched(t, flag);
    if r.all {
      assert r.bits + ids == r.bits;
      assert ids == {} ==> r.bits - ids == r.bits;
    }
  }

  lemma AddSubTidy(t: Table, r: Rights, id: nat, sub: string)
    requires Proper(t) && Tidy(t, r) && id in Ids(t) && id !in r.bits && sub != "" && '\0' !in sub
    ensures Tidy(t, AddSub(r, id, sub))
  {
    hide Ids, SameName;
  }

  /** A rule names commands of the table, and no subcommand is empty or holds a
      NUL. */
  ghost predicate Meant(t: Table, rule: Rule) {
    match rule
    case One(id, _) => id in Ids(t)
    case Sub(id, sub) => id in Ids(t) && sub != "" && '\0' !in sub
    case _ => true
  }

  lemma AllowMeant(t: Table, op: string)
    requires Proper(t) && op != "" && '\0' !in op
    ensures Meant(t, ParseAllow(t, op))
  {
    FoundId(t, op[1..]);
    FoundId(t, op[1..][..Bar(op[1..])]);
    hide Ids, SameName, FindCommand, Proper, Bar;
  }

  lemma ParseMeant(t: Table, op: string)
    requires Proper(t)
    ensures Meant(t, Parse(t, op))
  {
    hide Ids, SameName, FindCommand, FindCategory, Proper, Elsewhere, CText, ParseAllow;
    var text := CText(op);
    if text != "" {
      FoundId(t, text[1..]);
      AllowMeant(t, text);
    }
  }

  lemma ApplyTidy(t: Table, r: Rights, rule: Rule)
    requires Proper(t) && Tidy(t, r) && Meant(t, rule) && rule != Unknown
    ensures Tidy(t, Apply(t, r, rule))
  {
    hide Ids, Touched, Proper, Tidy, SetOne, SetCategory, AddSub;
    WholeTidy(t);
    match rule
    case One(id, value) => SetOneTidy(t, r, id, value);
    case Sub(id, sub) =>
      if id !in r.bits {
        AddSubTidy(t, r, id, sub);
      }
    case Group(flag, value) => SetCategoryTidy(t, r, flag, value);
    case _ =>
  }

  /** Every rule keeps a user tidy. */
  lemma SetUserTidy(t: Table, r: Rights, op: string)
    requires Proper(t) && Tidy(t, r)
    ensures SetUser(t, r, op).Some? ==> Tidy(t, SetUser(t, r, op).value)
  {
    ParseMeant(t, op);
    hide Parse, Meant, Apply, Proper, Tidy;
    if Parse(t, op) != Unknown {
      ApplyTidy(t, r, Parse(t, op));
    }
  }

  lemma WholeTidy(t: Table)
    requires Proper(t)
    ensures Tidy(t, Rights(AllBits(t), map[], true)) && Tidy(t, FRESH)
  {
  }

  /** Every user reachable by rules is tidy. */
  lemma {:induction false} ReachableTidy(t: Table, r: Rights, ops: seq<string>)
    requires Proper(t) && Tidy(t, r)
    ensures Replay(t, r, ops).Some? ==> Tidy(t, Replay(t, r, ops).value)
    decreases |ops|
  {
    hide Proper, Tidy, SetUser;
    if ops != [] {
      SetUserTidy(t, r, ops[0]);
      if SetUser(t, r, ops[0]).Some? {
        ReachableTidy(t, SetUser(t, r, ops[0]).value, ops[1..]);
      }
    }
  }

  // ------------------------------------------------------------------
  // ACLDescribeUserCommandRules
  // ------------------------------------------------------------------

  /** ACLCountCategoryBitsForUser: modules' commands are counted. */
  function CountBits(commands: seq<Command>, bits: set<nat>, flag: nat, on: bool): nat {
    if commands == [] then 0 else
      var c := commands[|commands| - 1];
      CountBits(commands[..|commands| - 1], bits, flag, on) + if flag in c.flags && (c.id in bits) == on then 1 else 0
  }

  const INT_MAX: nat := 0x7fff_ffff

  /** The best category seen so far, if any, with the numbers of commands on
      which it differs from and agrees with the user. */
  datatype Choice = Choice(best: Option<nat>, diff: nat, same: nat)

  /** One turn of the loop over categories. */
  function Weigh(t: Table, bits: set<nat>, additive: bool, applied: set<nat>, j: nat, c: Choice): Choice
    requires j < |t.categories|
  {
    var diff := CountBits(t.commands, bits, t.categories[j].flag, !additive);
    var same := CountBits(t.commands, bits, t.categories[j].flag, additive);
    if j !in applied && same > diff && (diff < c.diff || (diff == c.diff && same > c.same))
    then Choice(Some(j), diff, same)
    else c
  }

  /** The choice after the first `n` categories. */
  function Choose(t: Table, bits: set<nat>, additive: bool, applied: set<nat>, n: nat): (c: Choice)
    requires n <= |t.categories|
    ensures c.best.Some? ==> c.best.value < n && c.best.value !in applied
  {
    if n == 0 then Choice(None, INT_MAX, 0)
    else Weigh(t, bits, additive, applied, n - 1, Choose(t, bits, additive, applied, n - 1))
  }

  function Sign(plus: bool): string {
    if plus then "+" else "-"
  }

  /** The greedy loop: the rules emitted and what is left to be said is the
      effect of those rules on the fake user.  It ends because no category is
      applied twice. */
  function Greedy(t: Table, temp: set<nat>, additive: bool, applied: set<nat>): seq<string>
    decreases |Below(|t.categories|) - applied|
  {
    var best := Choose(t, temp, additive, applied, |t.categories|).best;
    if best.None? then [] else
      var c := t.categories[best.value];
      Shrinks(Below(|t.categories|), applied, best.value);
      [Sign(additive) + "@" + c.name]
      + Greedy(t, SetCategory(t, Rights(temp, map[], false), c.flag, !additive).bits, additive, applied + {best.value})
  }

  lemma Shrinks(all: set<nat>, applied: set<nat>, j: nat)
    requires j in all && j !in applied
    ensures |all - (applied + {j})| < |all - applied|
  {
    assert all - applied == all - (applied + {j}) + {j};
  }

  function SubRules(name: string, subs: seq<string>): seq<string> {
    seq(|subs|, j requires 0 <= j < |subs| => "+" + name + "|" + subs[j])
  }

  /** The rules for one command in the final pass. */
  function FixOne(c: Command, r: Rights, fake: set<nat>): seq<string> {
    (if (c.id in r.bits) != (c.id in fake) then [Sign(c.id in r.bits) + c.name] else [])
    + (if c.id !in r.bits && c.id in r.subs then SubRules(c.name, r.subs[c.id]) else [])
  }

  /** The final pass over the commands: a command's bit in the fake user is not
      touched before its turn. */
  function FixAll(commands: seq<Command>, r: Rights, fake: set<nat>): seq<string> {
    if commands == [] then []
    else FixAll(commands[..|commands| - 1], r, fake) + FixOne(commands[|commands| - 1], r, fake)
  }

  /** The fake user's bitmap after the final pass. */
  function Fixed(commands: seq<Command>, r: Rights, fake: set<nat>): set<nat> {
    if commands == [] then fake else
      var c := commands[|commands| - 1];
      var f := Fixed(commands[..|commands| - 1], r, fake);
      if c.id in r.bits then f + {c.id} else f - {c.id}
  }

  predicate Additive(t: Table, r: Rights)
    requires t.bits > 0
  {
    t.bits - 1 !in r.bits
  }

  /** The rules before the final pass. */
  function Broad(t: Table, r: Rights): seq<string>
    requires t.bits > 0
  {
    var additive := Additive(t, r);
    [Sign(!additive) + "@all"] + Greedy(t, r.bits, additive, {})
  }

  /** The fake user's bitmap before the final pass: what the rules emitted so
      far make of a fresh user. */
  function FakeBits(t: Table, r: Rights): set<nat>
    requires t.bits > 0
  {
    var f := Replay(t, FRESH, Broad(t, r));
    if f.Some? then f.value.bits else {}
  }

  function Describe(t: Table, r: Rights): seq<string>
    requires t.bits > 0
  {
    Broad(t, r) + FixAll(t.commands, r, FakeBits(t, r))
  }

  // ------------------------------------------------------------------
  // The rules emitted are understood
  // ------------------------------------------------------------------

  lemma {:induction false} FindCommandAt(commands: seq<Command>, i: nat)
    requires i < |commands|
    requires forall a, b | 0 <= a < b < |commands| :: !SameName(commands[a].name, commands[b].name)
    ensures FindCommand(commands, commands[i].name) == Some(commands[i])
  {
    hide SameName;
    assert SameName(commands[i].name, commands[i].name) by { SameSelf(commands[i].name); }
    if i > 0 {
      FindCommandAt(commands[1..], i - 1);
    }
  }

  lemma {:induction false} FindCategoryAt(categories: seq<Category>, i: nat)
    requires i < |categories|
    requires forall a, b | 0 <= a < b < |categories| :: !SameName(categories[a].name, categories[b].name)
    ensures FindCategory(categories, categories[i].name) == Some(categories[i].flag)
  {
    hide SameName;
    assert SameName(categories[i].name, categories[i].name) by { SameSelf(categories[i].name); }
    if i > 0 {
      FindCategoryAt(categories[1..], i - 1);
    }
  }

  lemma SameSelf(s: string)
    ensures SameName(s, s)
  {
  }

  /** Equal names have equal second characters, up to case. */
  lemma NotSame(a: string, b: string, i: nat)
    requires i < |a| && i < |b| && LowerChar(a[i]) != LowerChar(b[i])
    ensures !SameName(a, b)
  {
    assert Lower(a)[i] != Lower(b)[i];
  }

  /** What follows the sign and the at sign is compared as it stands. */
  lemma SameTail(a: string, b: string, k: nat)
    requires k <= |a| && k <= |b| && SameName(a, b)
    ensures SameName(a[k..], b[k..])
  {
    assert |a| == |Lower(a)| == |Lower(b)| == |b|;
    forall i | 0 <= i < |a| - k ensures Lower(a[k..])[i] == Lower(b[k..])[i] {
      assert Lower(a)[i + k] == Lower(b)[i + k];
    }
    assert Lower(a[k..]) == Lower(b[k..]);
  }

  lemma ParseEverything(t: Table, plus: bool)
    ensures Parse(t, Sign(plus) + "@all") == if plus then Every else NoCommand
  {
    hide Parse;
    if plus {
      assert Sign(plus) + "@all" == "+@all";
      ParseAll(t);
    } else {
      assert Sign(plus) + "@all" == "-@all";
      ParseNone(t);
    }
  }

  lemma ParseAll(t: Table)
    ensures Parse(t, "+@all") == Every
  {
    hide FindCommand, FindCategory, ParseAllow, ParseDeny, Elsewhere, SameName;
    SameSelf("+@all");
  }

  lemma ParseNone(t: Table)
    ensures Parse(t, "-@all") == NoCommand
  {
    hide FindCommand, FindCategory, ParseAllow, ParseDeny, Elsewhere, SameName;
    SameSelf("-@all");
    NotSame("-@all", "+@all", 0);
    NotSame("-@all", "allcommands", 0);
  }

  lemma NotEverything(op: string, all: string, name: string)
    requires |op| >= 2 && op[2..] == name && |all| >= 2 && all[2..] == "all" && !SameName(name, "all")
    ensures !SameName(op, all)
  {
    if SameName(op, all) {
      SameTail(op, all, 2);
    }
  }

  /** A rule with an at sign after its sign is about the category named. */
  lemma ParseGroup(t: Table, op: string)
    requires |op| >= 2 && op[1] == '@' && (op[0] == '+' || op[0] == '-') && '\0' !in op && !SameName(op[2..], "all")
    ensures Parse(t, op) == match FindCategory(t.categories, op[2..])
                            case None => Unknown
                            case Some(flag) => Group(flag, op[0] == '+')
  {
    NotSame(op, "allcommands", 0);
    NotSame(op, "nocommands", 0);
    NotEverything(op, "+@all", op[2..]);
    NotEverything(op, "-@all", op[2..]);
    hide SameName, FindCategory;
  }

  lemma ParseCategory(t: Table, j: nat, plus: bool)
    requires Proper(t) && j < |t.categories|
    ensures Parse(t, Sign(plus) + "@" + t.categories[j].name) == Group(t.categories[j].flag, plus)
  {
    hide Parse, SameName, FindCategory;
    var name := t.categories[j].name;
    var op := Sign(plus) + "@" + name;
    assert op[2..] == name;
    FindCategoryAt(t.categories, j);
    ParseGroup(t, op);
  }

  /** A rule that does not start with an at sign after its sign is about one
      command. */
  lemma ParseOne(t: Table, op: string)
    requires |op| > 1 && op[1] != '@' && (op[0] == '+' || op[0] == '-') && '\0' !in op
    ensures Parse(t, op) == if op[0] == '+' then ParseAllow(t, op) else ParseDeny(t, op)
  {
    NotSame(op, "+@all", 1);
    NotSame(op, "-@all", 1);
    NotSame(op, "allcommands", 0);
    NotSame(op, "nocommands", 0);
  }

  lemma ParseCommand(t: Table, i: nat, plus: bool)
    requires Proper(t) && i < |t.commands|
    ensures Parse(t, Sign(plus) + t.commands[i].name) == One(t.commands[i].id, plus)
  {
    var op := Sign(plus) + t.commands[i].name;
    assert op[1..] == t.commands[i].name;
    FindCommandAt(t.commands, i);
    ParseOne(t, op);
  }

  lemma {:induction false} BarAfter(s: string, rest: string)
    requires '|' !in s
    ensures Bar(s + "|" + rest) == |s|
  {
    var u := s + "|" + rest;
    if s != "" {
      assert u[1..] == s[1..] + "|" + rest;
      BarAfter(s[1..], rest);
    }
  }

  lemma ParseSub(t: Table, i: nat, sub: string)
    requires Proper(t) && i < |t.commands| && sub != "" && '\0' !in sub
    ensures Parse(t, "+" + t.commands[i].name + "|" + sub) == Sub(t.commands[i].id, sub)
  {
    hide Parse, Bar, FindCommand;
    var name := t.commands[i].name;
    var op := "+" + name + "|" + sub;
    assert op[1..] == name + "|" + sub;
    BarAfter(name, sub);
    assert op[1..][..|name|] == name && op[|name| + 2..] == sub;
    assert op[|name| + 1] == '|';
    FindCommandAt(t.commands, i);
    ParseOne(t, op);
  }

  // ------------------------------------------------------------------
  // Replaying them rebuilds the user
  // ------------------------------------------------------------------

  lemma {:induction false} ReplayAppend(t: Table, r: Rights, a: seq<string>, b: seq<string>)
    requires Replay(t, r, a).Some?
    ensures Replay(t, r, a + b) == Replay(t, Replay(t, r, a).value, b)
    decreases |a|
  {
    hide SetUser;
    if a == [] {
      assert a + b == b;
    } else {
      assert (a + b)[1..] == a[1..] + b;
      ReplayAppend(t, SetUser(t, r, a[0]).value, a[1..], b);
    }
  }

  lemma ReplayOne(t: Table, r: Rights, op: string)
    ensures Replay(t, r, [op]) == SetUser(t, r, op)
  {
    assert [op][1..] == [];
  }

  lemma {:induction false} GreedyReplays(t: Table, fake: Rights, temp: set<nat>, additive: bool, applied: set<nat>)
    requires Proper(t) && Tidy(t, fake) && fake.subs == map[]
    ensures var f := Replay(t, fake, Greedy(t, temp, additive, applied));
            && f.Some? && Tidy(t, f.value) && f.value.subs == map[]
            && (t.bits - 1 in f.value.bits <==> t.bits - 1 in fake.bits)
    decreases |Below(|t.categories|) - applied|
  {
    hide Proper, Tidy, Choose, Parse, Below, Touched, Ids;
    var best := Choose(t, temp, additive, applied, |t.categories|).best;
    if best.Some? {
      var c := t.categories[best.value];
      var op := Sign(additive) + "@" + c.name;
      InRange(best.value, |t.categories|);
      Shrinks(Below(|t.categories|), applied, best.value);
      ParseCategory(t, best.value, additive);
      SetUserTidy(t, fake, op);
      var next := SetCategory(t, fake, c.flag, additive);
      TouchedIds(t, c.flag);
      var rest := Greedy(t, SetCategory(t, Rights(temp, map[], false), c.flag, !additive).bits, additive,
          applied + {best.value});
      assert ([op] + rest)[1..] == rest;
      GreedyReplays(t, next, SetCategory(t, Rights(temp, map[], false), c.flag, !additive).bits, additive,
          applied + {best.value});
    }
  }

  lemma InRange(j: nat, n: nat)
    requires j < n
    ensures j in Below(n)
  {
  }

  /** The base rule and the category rules are all accepted, and make of a fresh
      user one that agrees with `r` on the reserved bit and has no subcommands. */
  lemma BroadReplays(t: Table, r: Rights)
    requires Proper(t)
    ensures var f := Replay(t, FRESH, Broad(t, r));
            && f.Some? && Tidy(t, f.value) && f.value.subs == map[]
            && (t.bits - 1 in f.value.bits <==> t.bits - 1 in r.bits)
  {
    hide Greedy, Parse;
    var additive := Additive(t, r);
    var op := Sign(!additive) + "@all";
    ParseEverything(t, !additive);
    ReplayOne(t, FRESH, op);
    WholeTidy(t);
    var base := if additive then FRESH else Rights(AllBits(t), map[], true);
    assert Replay(t, FRESH, [op]) == Some(base);
    ReplayAppend(t, FRESH, [op], Greedy(t, r.bits, additive, {}));
    GreedyReplays(t, base, r.bits, additive, {});
  }

  lemma {:induction false} SubsReplay(t: Table, i: nat, y: Rights, subs: seq<string>, n: nat)
    requires Proper(t) && i < |t.commands| && n <= |subs| && Clean(subs)
    requires t.commands[i].id !in y.bits && t.commands[i].id !in y.subs
    ensures Replay(t, y, SubRules(t.commands[i].name, subs[..n])) ==
            Some(if n == 0 then y else y.(subs := y.subs[t.commands[i].id := subs[..n]]))
  {
    hide Parse, SameName, Proper;
    var c := t.commands[i];
    if n > 0 {
      var front := SubRules(c.name, subs[..n - 1]);
      var op := "+" + c.name + "|" + subs[n - 1];
      assert SubRules(c.name, subs[..n]) == front + [op];
      SubsReplay(t, i, y, subs, n - 1);
      var z := Replay(t, y, front).value;
      ReplayAppend(t, y, front, [op]);
      ReplayOne(t, z, op);
      ParseSub(t, i, subs[n - 1]);
      assert SubsOf(z, c.id) == subs[..n - 1];
      assert subs[..n] == subs[..n - 1] + [subs[n - 1]];
      assert z.subs[c.id := subs[..n]] == y.subs[c.id := subs[..n]];
    }
  }

  /** The rules of the final pass for one command give it the user's bit and
      the user's subcommands, and change nothing else. */
  lemma FixOneReplays(t: Table, i: nat, r: Rights, fake: set<nat>, y: Rights)
    requires Proper(t) && Tidy(t, r) && i < |t.commands| && t.commands[i].id !in y.subs
    requires t.commands[i].id in y.bits <==> t.commands[i].id in fake
    ensures var c := t.commands[i];
            var z := Replay(t, y, FixOne(c, r, fake));
            && z.Some?
            && z.value.bits == (if c.id in r.bits then y.bits + {c.id} else y.bits - {c.id})
            && z.value.subs == if c.id in r.subs then y.subs[c.id := r.subs[c.id]] else y.subs
  {
    hide Parse, Ids, SameName, Proper;
    var c := t.commands[i];
    var first := if (c.id in r.bits) != (c.id in fake) then [Sign(c.id in r.bits) + c.name] else [];
    var second := if c.id !in r.bits && c.id in r.subs then SubRules(c.name, r.subs[c.id]) else [];
    if first != [] {
      ReplayOne(t, y, first[0]);
      ParseCommand(t, i, c.id in r.bits);
      assert y.subs - {c.id} == y.subs;
    } else {
      assert y.bits == if c.id in r.bits then y.bits + {c.id} else y.bits - {c.id};
    }
    var m := Replay(t, y, first).value;
    ReplayAppend(t, y, first, second);
    if second != [] {
      SubsReplay(t, i, m, r.subs[c.id], |r.subs[c.id]|);
      assert r.subs[c.id][..|r.subs[c.id]|] == r.subs[c.id];
    }
  }

  function FirstIds(t: Table, n: nat): set<nat>
    requires n <= |t.commands|
  {
    set i | 0 <= i < n :: t.commands[i].id
  }

  lemma FirstIdsNext(t: Table, n: nat)
    requires Proper(t) && n < |t.commands|
    ensures FirstIds(t, n + 1) == FirstIds(t, n) + {t.commands[n].id} && t.commands[n].id !in FirstIds(t, n)
  {
  }

  /** What holds of the replayed user after the rules for some commands. */
  ghost predicate Rebuilt(r: Rights, fake: set<nat>, ids: set<nat>, y: Rights) {
    && (forall id :: id in y.bits <==> if id in ids then id in r.bits else id in fake)
    && (forall id :: id in y.subs <==> id in ids && id in r.subs)
    && (forall id | id in y.subs :: y.subs[id] == r.subs[id])
  }

  lemma RebuiltNext(r: Rights, fake: set<nat>, ids: set<nat>, y: Rights, z: Rights, id: nat)
    requires Rebuilt(r, fake, ids, y) && id !in ids
    requires z.bits == (if id in r.bits then y.bits + {id} else y.bits - {id})
    requires z.subs == if id in r.subs then y.subs[id := r.subs[id]] else y.subs
    ensures Rebuilt(r, fake, ids + {id}, z)
  {
  }

  lemma {:induction false} FixReplays(t: Table, n: nat, r: Rights, x: Rights)
    requires Proper(t) && Tidy(t, r) && n <= |t.commands| && x.subs == map[]
    ensures var y := Replay(t, x, FixAll(t.commands[..n], r, x.bits));
            && y.Some? && Rebuilt(r, x.bits, FirstIds(t, n), y.value)
            && y.value.bits == Fixed(t.commands[..n], r, x.bits)
  {
    hide Rebuilt, FixOne, Ids, Tidy, Proper, FirstIds, SetUser;
    if n == 0 {
      assert Rebuilt(r, x.bits, FirstIds(t, 0), x) by { NothingRebuilt(t, r, x); }
    } else {
      assert t.commands[..n][..n - 1] == t.commands[..n - 1];
      var c := t.commands[n - 1];
      FixReplays(t, n - 1, r, x);
      var front := FixAll(t.commands[..n - 1], r, x.bits);
      var y := Replay(t, x, front).value;
      FirstIdsNext(t, n - 1);
      NotYet(r, x.bits, FirstIds(t, n - 1), y, c.id);
      ReplayAppend(t, x, front, FixOne(c, r, x.bits));
      FixOneReplays(t, n - 1, r, x.bits, y);
      var z := Replay(t, y, FixOne(c, r, x.bits)).value;
      RebuiltNext(r, x.bits, FirstIds(t, n - 1), y, z, c.id);
    }
  }

  lemma NothingRebuilt(t: Table, r: Rights, x: Rights)
    requires x.subs == map[]
    ensures Rebuilt(r, x.bits, FirstIds(t, 0), x)
  {
  }

  lemma NotYet(r: Rights, fake: set<nat>, ids: set<nat>, y: Rights, id: nat)
    requires Rebuilt(r, fake, ids, y) && id !in ids
    ensures id !in y.subs && (id in y.bits <==> id in fake)
  {
  }

  lemma AllRebuilt(t: Table, r: Rights, fake: Rights, y: Rights)
    requires Proper(t) && Tidy(t, r) && Tidy(t, fake) && Rebuilt(r, fake.bits, FirstIds(t, |t.commands|), y)
    requires t.bits - 1 in fake.bits <==> t.bits - 1 in r.bits
    ensures y.bits == r.bits && y.subs == r.subs
  {
    assert FirstIds(t, |t.commands|) == Ids(t);
    hide Ids, Proper;
    forall id ensures id in y.bits <==> id in r.bits {
    }
  }

  /** The round trip: every rule emitted is accepted, and replayed on a fresh
      user the list rebuilds exactly the bitmap and the subcommand lists. */
  lemma DescribeRebuilds(t: Table, r: Rights)
    requires Proper(t) && Tidy(t, r)
    ensures var y := Replay(t, FRESH, Describe(t, r));
            y.Some? && y.value.bits == r.bits && y.value.subs == r.subs
  {
    assert t.bits > 0;
    hide Broad, FixAll, Replay, Tidy, Proper, Rebuilt;
    BroadReplays(t, r);
    var f := Replay(t, FRESH, Broad(t, r)).value;
    ReplayAppend(t, FRESH, Broad(t, r), FixAll(t.commands, r, f.bits));
    assert t.commands[..|t.commands|] == t.commands;
    FixReplays(t, |t.commands|, r, f);
    AllRebuilt(t, r, f, Replay(t, f, FixAll(t.commands, r, f.bits)).value);
  }

  /** The comparison at the end never fails: the bitmap predicted by the fake
      user is the user's. */
  lemma PanicUnreachable(t: Table, r: Rights)
    requires Proper(t) && Tidy(t, r)
    ensures Fixed(t.commands, r, FakeBits(t, r)) == r.bits
  {
    assert t.bits > 0;
    hide Broad, FixAll, Replay, Tidy, Proper, Rebuilt, Fixed;
    BroadReplays(t, r);
    var f := Replay(t, FRESH, Broad(t, r)).value;
    assert t.commands[..|t.commands|] == t.commands;
    FixReplays(t, |t.commands|, r, f);
    AllRebuilt(t, r, f, Replay(t, f, FixAll(t.commands, r, f.bits)).value);
  }

  /** For every user that rules can make. */
  lemma ReachableRoundTrip(t: Table, ops: seq<string>)
    requires Proper(t) && Replay(t, FRESH, ops).Some?
    ensures var r := Replay(t, FRESH, ops).value;
            var y := Replay(t, FRESH, Describe(t, r));
            && y.Some? && y.value.bits == r.bits && y.value.subs == r.subs
            && Fixed(t.commands, r, FakeBits(t, r)) == r.bits
  {
    hide Describe, Replay, Fixed, Tidy;
    WholeTidy(t);
    ReachableTidy(t, FRESH, ops);
    var r := Replay(t, FRESH, ops).value;
    DescribeRebuilds(t, r);
    PanicUnreachable(t, r);
  }

  // ------------------------------------------------------------------
  // Permissions
  // ------------------------------------------------------------------

  /** The command part of ACLCheckCommandPerm, for a command and the arguments
      after its name. */
  predicate Allowed(r: Rights, c: Command, args: seq<string>) {
    || r.all || c.noAuth || c.id in r.bits
    || (args != [] && c.id in r.subs && exists i :: 0 <= i < |r.subs[c.id]| && SameName(args[0], r.subs[c.id][i]))
  }

  /** The rebuilt user may run exactly what the user may, whatever became of
      the ALLCOMMANDS flag. */
  lemma SamePermissions(t: Table, r: Rights, c: Command, args: seq<string>)
    requires Proper(t) && Tidy(t, r) && c in t.commands
    ensures var y := Replay(t, FRESH, Describe(t, r));
            y.Some? && (Allowed(y.value, c, args) <==> Allowed(r, c, args))
  {
    DescribeRebuilds(t, r);
    WholeTidy(t);
    ReachableTidy(t, FRESH, Describe(t, r));
    var i :| 0 <= i < |t.commands| && t.commands[i] == c;
    assert c.id in AllBits(t);
  }
}
