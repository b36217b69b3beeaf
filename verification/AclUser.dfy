/**
 acl.c as it runs: a user's bitmap changed bit by bit, and the rule compiler
 with its fake and temporary users.  The 64-bit words of the bitmap are taken
 byte by byte, as a little-endian machine lays them out.
 */
module AclUser {
  import opened Options
  import opened Bitmaps
  import opened Acl

  /** The ids whose bit is set. */
  function BitsOf(s: seq<bv8>): (r: set<nat>)
    ensures forall id: nat :: id in r <==> id < 8 * |s| && Bit(s, id)
  {
    set id: nat | id in Below(8 * |s|) && Bit(s, id)
  }

  lemma SameByte(a: bv8, b: bv8)
    requires forall k | 0 <= k < 8 :: ByteBit(a, k) == ByteBit(b, k)
    ensures a == b
  {
    assert ByteBit(a, 0) == ByteBit(b, 0) && ByteBit(a, 1) == ByteBit(b, 1) && ByteBit(a, 2) == ByteBit(b, 2)
        && ByteBit(a, 3) == ByteBit(b, 3) && ByteBit(a, 4) == ByteBit(b, 4) && ByteBit(a, 5) == ByteBit(b, 5)
        && ByteBit(a, 6) == ByteBit(b, 6) && ByteBit(a, 7) == ByteBit(b, 7);
  }

  /** Two bitmaps of one size that hold the same ids are the same bytes. */
  lemma SameBytes(a: seq<bv8>, b: seq<bv8>)
    requires |a| == |b| && BitsOf(a) == BitsOf(b)
    ensures a == b
  {
    forall i | 0 <= i < |a| ensures a[i] == b[i] {
      forall k | 0 <= k < 8 ensures ByteBit(a[i], k) == ByteBit(b[i], k) {
        var id := 8 * i + k;
        assert id / 8 == i && id % 8 == k;
        assert Bit(a, id) == Bit(b, id) by {
          assert id in BitsOf(a) <==> id in BitsOf(b);
        }
      }
      SameByte(a[i], b[i]);
    }
  }

  lemma NoBits(s: seq<bv8>)
    requires forall i | 0 <= i < |s| :: s[i] == 0
    ensures BitsOf(s) == {}
  {
  }

  lemma EveryBit(s: seq<bv8>)
    requires forall i | 0 <= i < |s| :: s[i] == 255
    ensures BitsOf(s) == Below(8 * |s|)
  {
    forall k | 0 <= k < 8 ensures ByteBit(255, k) {
    }
  }

  class User {
    const bitmap: array<bv8>
    var subs: map<nat, seq<string>>
    var allCommands: bool

    /** ACLCreateUser, and the zeroed users of the rule compiler. */
    constructor (bytes: nat)
      ensures fresh(bitmap) && bitmap.Length == bytes && View() == FRESH
    {
      bitmap := new bv8[bytes](_ => 0);
      subs, allCommands := map[], false;
      new;
      NoBits(bitmap[..]);
    }

    function Bits(): set<nat>
      reads bitmap
    {
      BitsOf(bitmap[..])
    }

    function View(): Rights
      reads this, bitmap
    {
      Rights(Bits(), subs, allCommands)
    }

    /** ACLGetUserCommandBit: an id that overflows the bitmap is denied. */
    method GetCommandBit(id: nat) returns (on: bool)
      ensures on == (id in Bits())
    {
      if id >= 8 * bitmap.Length {
        return false;
      }
      on := TestBit(bitmap, id);
    }

    /** ACLSetUserCommandBit */
    method SetCommandBit(id: nat, value: bool)
      requires id < 8 * bitmap.Length
      modifies this`allCommands, bitmap
      ensures Bits() == if value then old(Bits()) + {id} else old(Bits()) - {id}
      ensures allCommands == (old(allCommands) && value)
    {
      if value {
        SetBit(bitmap, id);
      } else {
        ClearBit(bitmap, id);
        allCommands := false;
      }
    }

    /** ACLResetSubcommandsForCommand */
    method ResetSubcommandsForCommand(id: nat)
      modifies this`subs
      ensures subs == old(subs) - {id}
    {
      subs := subs - {id};
    }

    /** ACLAddAllowedSubcommand */
    method AddAllowedSubcommand(id: nat, sub: string)
      modifies this`subs
      ensures View() == AddSub(old(View()), id, sub)
    {
      var list := if id in subs then subs[id] else [];
      var items := 0;
      while items < |list|
        invariant items <= |list| && subs == old(subs)
        invariant forall i | 0 <= i < items :: !SameName(list[i], sub)
      {
        if SameName(list[items], sub) {
          return;
        }
        items := items + 1;
      }
      subs := subs[id := list + [sub]];
    }

    /** ACLSetUserCommandBitsForCategory */
    method SetCommandBitsForCategory(t: Table, category: string, value: bool) returns (ok: bool)
      requires Proper(t) && 8 * bitmap.Length == t.bits
      modifies this, bitmap
      ensures ok == FindCategory(t.categories, category).Some?
      ensures View() == if ok then SetCategory(t, old(View()), FindCategory(t.categories, category).value, value)
                        else old(View())
    {
      hide SetIds, SetCategory, TouchedBy, Touched, Bits;
      var found := FindCategory(t.categories, category);
      if found.None? {
        return false;
      }
      var flag := found.value;
      ghost var r := View();
      FirstTouched(t, flag, r, value);
      for i := 0 to |t.commands|
        invariant View() == SetIds(r, TouchedBy(t, flag, i), value)
      {
        var cmd := t.commands[i];
        NextTouched(t, flag, i, r, value);
        if !cmd.isModule && flag in cmd.flags {
          SetCommandBit(cmd.id, value);
          ResetSubcommandsForCommand(cmd.id);
        }
      }
      AllTouched(t, flag, r, value);
      ok := true;
    }

    /** ACLCountCategoryBitsForUser */
    method CountCategoryBits(t: Table, category: string) returns (ok: bool, on: nat, off: nat)
      ensures ok == FindCategory(t.categories, category).Some?
      ensures ok ==> var flag := FindCategory(t.categories, category).value;
                     on == CountBits(t.commands, Bits(), flag, true)
                         && off == CountBits(t.commands, Bits(), flag, false)
    {
      var found := FindCategory(t.categories, category);
      if found.None? {
        return false, 0, 0;
      }
      ok, on, off := true, 0, 0;
      for i := 0 to |t.commands|
        invariant on == CountBits(t.commands[..i], Bits(), found.value, true)
        invariant off == CountBits(t.commands[..i], Bits(), found.value, false)
      {
        assert t.commands[..i + 1][..i] == t.commands[..i];
        if found.value in t.commands[i].flags {
          var bit := GetCommandBit(t.commands[i].id);
          if bit {
            on := on + 1;
          } else {
            off := off + 1;
          }
        }
      }
      assert t.commands[..|t.commands|] == t.commands;
    }

    /** The memset and ACLResetSubcommands of +@all and -@all. */
    method SetAll(value: bool)
      modifies this, bitmap
      ensures View() == if value then Rights(Below(8 * bitmap.Length), map[], true) else FRESH
    {
      var fill: bv8 := if value then 255 else 0;
      forall i | 0 <= i < bitmap.Length {
        bitmap[i] := fill;
      }
      allCommands, subs := value, map[];
      if value {
        EveryBit(bitmap[..]);
      } else {
        NoBits(bitmap[..]);
      }
    }

    /** ACLSetUser, as far as commands go. */
    method SetUser(t: Table, op: string) returns (ok: bool)
      requires Proper(t) && 8 * bitmap.Length == t.bits
      modifies this, bitmap
      ensures ok == Acl.SetUser(t, old(View()), op).Some?
      ensures View() == if ok then Acl.SetUser(t, old(View()), op).value else old(View())
    {
      hide Touched, FindCommand, FindCategory, SameName, Elsewhere, ParseAllow;
      ok := true;
      if op == "" {
        return;
      }
      var text := CText(op);
      if text == "" {
        EmptyText(op);
        ok := false;
      } else if SameName(text, "allcommands") || SameName(text, "+@all") {
        SetAll(true);
      } else if SameName(text, "nocommands") || SameName(text, "-@all") {
        SetAll(false);
      } else if text[0] == '+' && !(|text| > 1 && text[1] == '@') {
        ok := Allow(t, text);
      } else if text[0] == '-' && !(|text| > 1 && text[1] == '@') {
        ok := SetOneCommand(t, text[1..], false);
      } else if text[0] == '+' || text[0] == '-' {
        ok := SetCommandBitsForCategory(t, text[2..], text[0] == '+');
      } else if SameName(text, "reset") {
        SetAll(false);
      } else {
        ok := Elsewhere(op);
      }
    }

    method SetOneCommand(t: Table, name: string, value: bool) returns (ok: bool)
      requires Proper(t) && 8 * bitmap.Length == t.bits
      modifies this, bitmap
      ensures var c := FindCommand(t.commands, name);
              ok == c.Some? && View() == if ok then SetOne(old(View()), c.value.id, value) else old(View())
    {
      var cmd := FindCommand(t.commands, name);
      if cmd.None? {
        return false;
      }
      IdFits(t, name);
      SetCommandBit(cmd.value.id, value);
      ResetSubcommandsForCommand(cmd.value.id);
      ok := true;
    }

    /** The branch of ACLSetUser for +command and +command|subcommand. */
    method Allow(t: Table, op: string) returns (ok: bool)
      requires Proper(t) && 8 * bitmap.Length == t.bits && op != ""
      modifies this, bitmap
      ensures ok == (ParseAllow(t, op) != Unknown)
      ensures View() == if ok then Apply(t, old(View()), ParseAllow(t, op)) else old(View())
    {
      hide Bits, FindCommand, Bar;
      if '|' !in op {
        ok := SetOneCommand(t, op[1..], true);
        return;
      }
      var k := Bar(op[1..]);
      var cmd := FindCommand(t.commands, op[1..][..k]);
      if cmd.None? || k + 2 >= |op| {
        return false;
      }
      var bit := GetCommandBit(cmd.value.id);
      if !bit {
        AddAllowedSubcommand(cmd.value.id, op[k + 2..]);
      }
      ok := true;
    }

    /** The command part of ACLCheckCommandPerm. */
    method CheckCommandPerm(c: Command, args: seq<string>) returns (ok: bool)
      ensures ok == Allowed(View(), c, args)
    {
      if !allCommands && !c.noAuth {
        var bit := GetCommandBit(c.id);
        if !bit {
          if args == [] || c.id !in subs {
            return false;
          }
          var subid := 0;
          while true
            invariant 0 <= subid <= |subs[c.id]|
            invariant forall i | 0 <= i < subid :: !SameName(args[0], subs[c.id][i])
            decreases |subs[c.id]| - subid
          {
            if subid == |subs[c.id]| {
              return false;
            }
            if SameName(args[0], subs[c.id][subid]) {
              break;
            }
            subid := subid + 1;
          }
        }
      }
      ok := true;
    }
  }

  /** A rule that starts with a NUL is no rule. */
  lemma EmptyText(op: string)
    requires op != "" && CText(op) == ""
    ensures !Elsewhere(op)
  {
    hide SameName;
    forall word: string | word != "" ensures !SameName("", word) {
      LengthsDiffer("", word);
    }
  }

  lemma LengthsDiffer(a: string, b: string)
    requires |a| != |b|
    ensures !SameName(a, b)
  {
  }

  lemma IdFits(t: Table, name: string)
    requires Proper(t)
    ensures var c := FindCommand(t.commands, name); c.Some? ==> c.value.id < t.bits
  {
    var c := FindCommand(t.commands, name);
    if c.Some? {
      var i :| 0 <= i < |t.commands| && t.commands[i] == c.value;
    }
  }

  /** SetCategory for an explicit set of ids. */
  function SetIds(r: Rights, ids: set<nat>, value: bool): Rights {
    Rights(if value then r.bits + ids else r.bits - ids, r.subs - ids, r.all && (value || ids == {}))
  }

  /** The ids of the first `n` commands that a category rule touches. */
  function TouchedBy(t: Table, flag: nat, n: nat): set<nat>
    requires n <= |t.commands|
  {
    set i | 0 <= i < n && flag in t.commands[i].flags && !t.commands[i].isModule :: t.commands[i].id
  }

  lemma FirstTouched(t: Table, flag: nat, r: Rights, value: bool)
    ensures SetIds(r, TouchedBy(t, flag, 0), value) == r
  {
  }

  lemma AllTouched(t: Table, flag: nat, r: Rights, value: bool)
    ensures SetIds(r, TouchedBy(t, flag, |t.commands|), value) == SetCategory(t, r, flag, value)
  {
    assert TouchedBy(t, flag, |t.commands|) == Touched(t, flag);
  }

  lemma NextTouched(t: Table, flag: nat, n: nat, r: Rights, value: bool)
    requires n < |t.commands|
    ensures var c, before := t.commands[n], SetIds(r, TouchedBy(t, flag, n), value);
            SetIds(r, TouchedBy(t, flag, n + 1), value) ==
            if !c.isModule && flag in c.flags then SetOne(before, c.id, value) else before
  {
    var c := t.commands[n];
    var a, b := TouchedBy(t, flag, n), TouchedBy(t, flag, n + 1);
    if !c.isModule && flag in c.flags {
      assert b == a + {c.id};
    } else {
      assert b == a;
    }
  }

  // ------------------------------------------------------------------
  // The rule compiler
  // ------------------------------------------------------------------

  /** The categories already applied. */
  function AppliedSet(applied: seq<bool>): (s: set<nat>)
    ensures forall j: nat :: j in s <==> j < |applied| && applied[j]
  {
    set j: nat | j in Below(|applied|) && applied[j]
  }

  /** The loop that picks the best category. */
  method ChooseCategory(t: Table, temp: User, additive: bool, applied: array<bool>) returns (best: int)
    requires Proper(t) && applied.Length == |t.categories|
    ensures var c := Choose(t, temp.Bits(), additive, AppliedSet(applied[..]), |t.categories|);
            best == if c.best.Some? then c.best.value else -1
  {
    hide CountBits, SameName, FindCategory;
    best := -1;
    var mindiff, maxsame := INT_MAX, 0;
    for j := 0 to |t.categories|
      invariant Choose(t, temp.Bits(), additive, AppliedSet(applied[..]), j)
             == Choice(if best >= 0 then Some(best) else None, mindiff, maxsame)
      invariant best >= -1
    {
      assert j in AppliedSet(applied[..]) <==> applied[j];
      if applied[j] {
        continue;
      }
      var ok, on, off := temp.CountCategoryBits(t, t.categories[j].name);
      FindCategoryAt(t.categories, j);
      var diff := if additive then off else on;
      var same := if additive then on else off;
      if same > diff && (diff < mindiff || (diff == mindiff && same > maxsame)) {
        best, mindiff, maxsame := j, diff, same;
      }
    }
  }

  /** The rule for a category, applied to the fake user and undone in the
      temporary one. */
  method ApplyCategory(t: Table, temp: User, fake: User, additive: bool, best: nat) returns (op: string)
    requires Proper(t) && 8 * temp.bitmap.Length == t.bits == 8 * fake.bitmap.Length && best < |t.categories|
    requires temp != fake && temp.bitmap != fake.bitmap
    modifies temp, fake, temp.bitmap, fake.bitmap
    ensures var c := t.categories[best];
            && op == Sign(additive) + "@" + c.name
            && fake.View() == SetCategory(t, old(fake.View()), c.flag, additive)
            && temp.View() == SetCategory(t, old(temp.View()), c.flag, !additive)
            && Acl.SetUser(t, old(fake.View()), op) == Some(fake.View())
  {
    hide Proper, Parse, Below, Acl.SetUser, SetCategory, BitsOf;
    op := Sign(additive) + "@" + t.categories[best].name;
    ParsedGroup(t, fake.View(), best, additive);
    var ok := fake.SetUser(t, op);
    ParsedGroup(t, temp.View(), best, !additive);
    ok := temp.SetUser(t, Sign(!additive) + "@" + t.categories[best].name);
  }

  /** The greedy loop. */
  method EmitCategories(t: Table, temp: User, fake: User, additive: bool, start: seq<string>, ghost base: Rights)
    returns (rules: seq<string>)
    requires Proper(t) && 8 * temp.bitmap.Length == t.bits == 8 * fake.bitmap.Length
    requires temp != fake && temp.bitmap != fake.bitmap && temp.subs == map[] && !temp.allCommands
    requires Replay(t, base, start) == Some(fake.View())
    modifies temp, fake, temp.bitmap, fake.bitmap
    ensures rules == start + Greedy(t, old(temp.Bits()), additive, {})
    ensures Replay(t, base, rules) == Some(fake.View())
  {
    hide Proper, Choose, Parse, Below, Acl.SetUser, Replay, Greedy, BitsOf, Touched;
    var applied := new bool[|t.categories|](_ => false);
    rules := start;
    assert AppliedSet(applied[..]) == {};
    while true
      invariant temp.subs == map[] && !temp.allCommands
      invariant rules + Greedy(t, temp.Bits(), additive, AppliedSet(applied[..]))
                == start + Greedy(t, old(temp.Bits()), additive, {})
      invariant Replay(t, base, rules) == Some(fake.View())
      decreases |Below(|t.categories|) - AppliedSet(applied[..])|
    {
      var best := ChooseCategory(t, temp, additive, applied);
      ghost var done, bits := AppliedSet(applied[..]), temp.Bits();
      GreedyStep(t, bits, additive, done);
      if best == -1 {
        assert rules + [] == rules;
        break;
      }
      ghost var before := fake.View();
      var op := ApplyCategory(t, temp, fake, additive, best);
      ReplaySnoc(t, base, rules, op);
      MarkApplied(applied[..], best);
      applied[best] := true;
      InRange(best, |t.categories|);
      Shrinks(Below(|t.categories|), done, best);
      Reassociate(rules, op, Greedy(t, temp.Bits(), additive, AppliedSet(applied[..])));
      rules := rules + [op];
    }
  }

  lemma MarkApplied(applied: seq<bool>, j: nat)
    requires j < |applied|
    ensures AppliedSet(applied[j := true]) == AppliedSet(applied) + {j}
  {
  }

  lemma Reassociate(a: seq<string>, op: string, b: seq<string>)
    ensures a + ([op] + b) == a + [op] + b
  {
  }

  lemma GreedyStep(t: Table, bits: set<nat>, additive: bool, applied: set<nat>)
    ensures var best := Choose(t, bits, additive, applied, |t.categories|).best;
            Greedy(t, bits, additive, applied) ==
            if best.None? then [] else
              var c := t.categories[best.value];
              [Sign(additive) + "@" + c.name]
              + Greedy(t, SetCategory(t, Rights(bits, map[], false), c.flag, !additive).bits, additive,
                  applied + {best.value})
  {
  }

  lemma ParsedGroup(t: Table, r: Rights, j: nat, plus: bool)
    requires Proper(t) && j < |t.categories|
    ensures Acl.SetUser(t, r, Sign(plus) + "@" + t.categories[j].name)
            == Some(SetCategory(t, r, t.categories[j].flag, plus))
    ensures r.subs == map[] ==> SetCategory(t, r, t.categories[j].flag, plus).subs == map[]
  {
    ParseCategory(t, j, plus);
  }

  lemma ReplaySnoc(t: Table, r: Rights, ops: seq<string>, op: string)
    requires Replay(t, r, ops).Some?
    ensures Replay(t, r, ops + [op]) == Acl.SetUser(t, Replay(t, r, ops).value, op)
  {
    ReplayAppend(t, r, ops, [op]);
    ReplayOne(t, Replay(t, r, ops).value, op);
  }

  /** The rules for a command's subcommands. */
  method EmitSubs(rules: seq<string>, name: string, subs: seq<string>) returns (out: seq<string>)
    ensures out == rules + SubRules(name, subs)
  {
    out := rules;
    var j := 0;
    assert SubRules(name, subs)[..0] == [];
    while j < |subs|
      invariant j <= |subs| && out == rules + SubRules(name, subs)[..j]
    {
      assert SubRules(name, subs)[..j + 1] == SubRules(name, subs)[..j] + ["+" + name + "|" + subs[j]];
      out := out + ["+" + name + "|" + subs[j]];
      j := j + 1;
    }
    assert SubRules(name, subs)[..j] == SubRules(name, subs);
  }

  /** A command's bit in the fake user is as it was before the final pass until
      its own turn. */
  lemma {:induction false} UntouchedYet(t: Table, n: nat, i: nat, r: Rights, fake: set<nat>)
    requires Proper(t) && n <= i < |t.commands|
    ensures t.commands[i].id in Fixed(t.commands[..n], r, fake) <==> t.commands[i].id in fake
  {
    if n > 0 {
      assert t.commands[..n][..n - 1] == t.commands[..n - 1];
      UntouchedYet(t, n - 1, i, r, fake);
    }
  }

  /** One command of the final pass. */
  method EmitCommand(cmd: Command, u: User, fake: User, before: seq<string>, ghost bits: set<nat>)
      returns (rules: seq<string>)
    requires cmd.id < 8 * fake.bitmap.Length && u != fake && u.bitmap != fake.bitmap
    requires cmd.id in fake.Bits() <==> cmd.id in bits
    modifies fake, fake.bitmap
    ensures rules == before + FixOne(cmd, u.View(), bits)
    ensures fake.Bits() == if cmd.id in u.Bits() then old(fake.Bits()) + {cmd.id} else old(fake.Bits()) - {cmd.id}
  {
    hide SubRules, BitsOf;
    var userbit := u.GetCommandBit(cmd.id);
    var fakebit := fake.GetCommandBit(cmd.id);
    var first: seq<string> := if userbit != fakebit then [Sign(userbit) + cmd.name] else [];
    rules := before + first;
    if userbit != fakebit {
      fake.SetCommandBit(cmd.id, userbit);
    } else {
      assert fake.Bits() == if userbit then fake.Bits() + {cmd.id} else fake.Bits() - {cmd.id};
    }
    if !userbit && cmd.id in u.subs {
      rules := EmitSubs(rules, cmd.name, u.subs[cmd.id]);
      assert rules == before + (first + SubRules(cmd.name, u.subs[cmd.id]));
    } else {
      assert first + [] == first;
    }
  }

  /** The final pass. */
  method EmitCommands(t: Table, u: User, fake: User, start: seq<string>) returns (rules: seq<string>)
    requires Proper(t) && 8 * fake.bitmap.Length == t.bits && u != fake && u.bitmap != fake.bitmap
    modifies fake, fake.bitmap
    ensures rules == start + FixAll(t.commands, u.View(), old(fake.Bits()))
    ensures fake.Bits() == Fixed(t.commands, u.View(), old(fake.Bits()))
  {
    hide FixOne, BitsOf, FixAll, Fixed;
    rules := start;
    ghost var bits := fake.Bits();
    FixNone(t.commands, u.View(), bits);
    assert start + [] == start;
    for i := 0 to |t.commands|
      invariant rules == start + FixAll(t.commands[..i], u.View(), bits)
      invariant fake.Bits() == Fixed(t.commands[..i], u.View(), bits)
    {
      UntouchedYet(t, i, i, u.View(), bits);
      FixNext(t.commands, i, u.View(), bits);
      rules := EmitCommand(t.commands[i], u, fake, rules, bits);
      assert rules == start + (FixAll(t.commands[..i], u.View(), bits) + FixOne(t.commands[i], u.View(), bits));
    }
    assert t.commands[..|t.commands|] == t.commands;
  }

  lemma FixNone(commands: seq<Command>, r: Rights, fake: set<nat>)
    ensures FixAll(commands[..0], r, fake) == [] && Fixed(commands[..0], r, fake) == fake
  {
  }

  lemma FixNext(commands: seq<Command>, n: nat, r: Rights, fake: set<nat>)
    requires n < |commands|
    ensures FixAll(commands[..n + 1], r, fake) == FixAll(commands[..n], r, fake) + FixOne(commands[n], r, fake)
    ensures var f := Fixed(commands[..n], r, fake);
            Fixed(commands[..n + 1], r, fake)
            == if commands[n].id in r.bits then f + {commands[n].id} else f - {commands[n].id}
  {
    assert commands[..n + 1][..n] == commands[..n];
  }

  /** ACLDescribeUserCommandRules: the rules, and whether the final comparison
      of bitmaps finds them equal, which it always does. */
  method DescribeUserCommandRules(t: Table, u: User) returns (rules: seq<string>, equal: bool)
    requires Proper(t) && Tidy(t, u.View()) && 8 * u.bitmap.Length == t.bits
    ensures rules == Describe(t, u.View())
    ensures equal
  {
    hide Broad, FixAll, Fixed, Replay, Tidy, Rebuilt, BitsOf, Greedy, Acl.SetUser, Parse;
    ghost var r := u.View();
    var future := u.GetCommandBit(t.bits - 1);
    var additive := !future;
    var fake := new User(u.bitmap.Length);
    var base := Sign(!additive) + "@all";
    ReplayBase(t, base);
    var ok := fake.SetUser(t, base);
    BaseAccepted(t, !additive);
    var temp := new User(u.bitmap.Length);
    CopyBits(u.bitmap, temp.bitmap);
    assert additive == Additive(t, r) && temp.Bits() == r.bits;
    rules := EmitCategories(t, temp, fake, additive, [base], FRESH);
    BroadIs(t, r, rules);
    PanicUnreachable(t, r);
    rules := EmitCommands(t, u, fake, rules);
    SameBytes(fake.bitmap[..], u.bitmap[..]);
    equal := SameBitmaps(fake.bitmap, u.bitmap);
  }

  lemma ReplayBase(t: Table, base: string)
    ensures Replay(t, FRESH, [base]) == Acl.SetUser(t, FRESH, base)
  {
    ReplayOne(t, FRESH, base);
  }

  lemma BaseAccepted(t: Table, plus: bool)
    ensures Acl.SetUser(t, FRESH, Sign(plus) + "@all").Some?
  {
    ParseEverything(t, plus);
  }

  lemma BroadIs(t: Table, r: Rights, rules: seq<string>)
    requires t.bits > 0
    requires rules == [Sign(!Additive(t, r)) + "@all"] + Greedy(t, r.bits, Additive(t, r), {})
    ensures rules == Broad(t, r)
  {
  }

  /** The memcpy to the temporary user. */
  method CopyBits(from: array<bv8>, to: array<bv8>)
    requires from.Length == to.Length && from != to
    modifies to
    ensures to[..] == from[..]
  {
    forall i | 0 <= i < from.Length {
      to[i] := from[i];
    }
    assert to[..] == from[..];
  }

  /** memcmp */
  method SameBitmaps(a: array<bv8>, b: array<bv8>) returns (equal: bool)
    requires a.Length == b.Length
    ensures equal == (a[..] == b[..])
  {
    for i := 0 to a.Length
      invariant a[..i] == b[..i]
    {
      if a[i] != b[i] {
        assert a[..][i] != b[..][i];
        return false;
      }
    }
    assert a[..a.Length] == a[..] && b[..b.Length] == b[..];
    equal := true;
  }
}
