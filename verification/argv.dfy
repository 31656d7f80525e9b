/**
  The command line of the harness: -name value, --name value, -name=value,
  --name=value, and bare boolean flags.
  */
module Argv {
  import opened Base

  /** A flag and the values its assignment accepts. */
  datatype Flag = Flag(name: string, boolean: bool, accepts: string -> bool)

  type Slots = map<string, string>

  datatype Result =
    | Parsed(slots: Slots) | Usage | Positional(arg: string) | Undefined(name: string)
    | NeedsArgument(name: string) | BadValue(name: string, value: string)

  /** A name of the flag table: not empty, no dash in front, no equals sign, and
      not one of the two help flags. */
  predicate PlainName(name: string) {
    name != [] && name[0] != '-' && '=' !in name && name != "h" && name != "help"
  }

  predicate WellNamed(table: seq<Flag>) {
    forall k :: 0 <= k < |table| ==> PlainName(table[k].name)
  }

  /** The first flag of the table with this name. */
  function Find(table: seq<Flag>, name: string): (k: Option<nat>)
    ensures k.Some? ==> k.value < |table| && table[k.value].name == name
  {
    if table == [] then None
    else if table[0].name == name then Some(0)
    else match Find(table[1..], name) case None => None case Some(k) => Some(k + 1)
  }

  /** Where the first equals sign stands, or the length. */
  function Equals(s: string): (n: nat)
    ensures n <= |s| && '=' !in s[..n] && (n < |s| ==> s[n] == '=')
  {
    if s == [] || s[0] == '=' then 0
    else
      var n := 1 + Equals(s[1..]);
      assert s[..n] == [s[0]] + s[1..][..n - 1];
      n
  }

  /** An argument without its one or two dashes. */
  function Body(arg: string): string
    requires 2 <= |arg|
  {
    if arg[1] == '-' then arg[2..] else arg[1..]
  }

  function Parse(table: seq<Flag>, args: seq<string>, slots: Slots): Result
    decreases |args|, 0
  {
    if args == [] then Parsed(slots)
    else if |args[0]| < 2 || args[0][0] != '-' then Positional(args[0])
    else
      var body := Body(args[0]);
      if body == "h" || body == "help" then Usage
      else
        var eq := Equals(body);
        var found := Find(table, body[..eq]);
        if found == None then Undefined(body[..eq])
        else
          var f := table[found.value];
          if eq < |body| then Store(table, f, body[eq + 1..], args[1..], slots)
          else if f.boolean then Store(table, f, "true", args[1..], slots)
          else if 1 < |args| then Store(table, f, args[1], args[2..], slots)
          else NeedsArgument(f.name)
  }

  /** Assigns one value and goes on with the remaining arguments. */
  function Store(table: seq<Flag>, f: Flag, value: string, rest: seq<string>, slots: Slots): Result
    decreases |rest|, 1
  {
    if f.accepts(value) then Parse(table, rest, slots[f.name := value]) else BadValue(f.name, value)
  }

  method LookUp(table: seq<Flag>, name: string) returns (k: Option<nat>)
    ensures k == Find(table, name)
  {
    for i := 0 to |table|
      invariant Find(table, name) ==
        (match Find(table[i..], name) case None => None case Some(j) => Some(i + j))
    {
      assert table[i..][1..] == table[i + 1..];
      if table[i].name == name {
        return Some(i);
      }
    }
    return None;
  }

  method ParseArgv(table: seq<Flag>, args: seq<string>, defaults: Slots) returns (r: Result)
    ensures r == Parse(table, args, defaults)
  {
    var slots := defaults;
    var i := 0;
    while i < |args|
      invariant i <= |args|
      invariant Parse(table, args, defaults) == Parse(table, args[i..], slots)
    {
      var arg := args[i];
      assert args[i..][1..] == args[i + 1..];
      if |arg| < 2 || arg[0] != '-' {
        return Positional(arg);
      }
      var name := Body(arg);
      if name == "h" || name == "help" {
        return Usage;
      }
      var value: Option<string> := None;
      var eq := Equals(name);
      if eq < |name| {
        value := Some(name[eq + 1..]);
        name := name[..eq];
      } else {
        assert name[..eq] == name;
      }
      var k := LookUp(table, name);
      if k == None {
        return Undefined(name);
      }
      var fl := table[k.value];
      if value == None {
        if fl.boolean {
          value := Some("true");
        } else if i + 1 < |args| {
          assert args[i..][2..] == args[i + 2..] && args[i..][1] == args[i + 1];
          i := i + 1;
          value := Some(args[i]);
        } else {
          return NeedsArgument(fl.name);
        }
      }
      if !fl.accepts(value.value) {
        return BadValue(fl.name, value.value);
      }
      slots := slots[fl.name := value.value];
      i := i + 1;
    }
    return Parsed(slots);
  }

  // -------------------------------------------------------------- spellings

  datatype Form = Apart | Joined | Bare

  /** One flag setting, and the way it is spelt. */
  datatype Setting = Setting(name: string, value: string, twoDashes: bool, form: Form)

  predicate WellSpelt(table: seq<Flag>, st: Setting) {
    && Find(table, st.name) != None
    && var f := table[Find(table, st.name).value];
       match st.form
       case Apart => !f.boolean
       case Joined => true
       case Bare => f.boolean && st.value == "true"
  }

  predicate AllWellSpelt(table: seq<Flag>, sts: seq<Setting>) {
    forall i :: 0 <= i < |sts| ==> WellSpelt(table, sts[i])
  }

  function Dashed(st: Setting): string {
    (if st.twoDashes then "--" else "-") + st.name
  }

  function Spelt(st: Setting): seq<string> {
    match st.form
    case Apart => [Dashed(st), st.value]
    case Joined => [Dashed(st) + "=" + st.value]
    case Bare => [Dashed(st)]
  }

  function SpeltAll(sts: seq<Setting>): seq<string> {
    if sts == [] then [] else Spelt(sts[0]) + SpeltAll(sts[1..])
  }

  /** What a list of settings means; no spelling enters it. */
  function Meaning(table: seq<Flag>, sts: seq<Setting>, slots: Slots): Result
    requires AllWellSpelt(table, sts)
  {
    if sts == [] then Parsed(slots)
    else
      var st := sts[0];
      if table[Find(table, st.name).value].accepts(st.value)
      then Meaning(table, sts[1..], slots[st.name := st.value])
      else BadValue(st.name, st.value)
  }

  lemma {:induction false} EqualsIs(name: string, rest: string)
    requires '=' !in name && (rest != [] ==> rest[0] == '=')
    ensures Equals(name + rest) == |name|
  {
    if name == [] {
      assert name + rest == rest;
    } else {
      assert (name + rest)[1..] == name[1..] + rest;
      EqualsIs(name[1..], rest);
    }
  }

  lemma NameIsPlain(table: seq<Flag>, name: string)
    requires WellNamed(table) && Find(table, name) != None
    ensures PlainName(name)
  {
  }

  /** The body of a dashed name, with whatever is joined to it. */
  lemma BodyOf(st: Setting, rest: string)
    requires PlainName(st.name) && (rest != [] ==> rest[0] == '=')
    ensures var arg := Dashed(st) + rest;
      && 2 <= |arg| && arg[0] == '-' && Body(arg) == st.name + rest && Equals(Body(arg)) == |st.name|
      && (st.name + rest)[..|st.name|] == st.name
      && Body(arg) != "h" && Body(arg) != "help"
  {
    EqualsIs(st.name, rest);
    hide Equals;
    var arg := Dashed(st) + rest;
    assert Body(arg) == st.name + rest;
    assert rest != [] ==> Body(arg)[|st.name|] == '=';
    assert rest == [] ==> Body(arg) == st.name;
  }

  lemma ParseFirst(table: seq<Flag>, args: seq<string>, slots: Slots, eq: nat)
    requires args != [] && 2 <= |args[0]| && args[0][0] == '-'
    requires Body(args[0]) != "h" && Body(args[0]) != "help" && eq == Equals(Body(args[0]))
    requires Find(table, Body(args[0])[..eq]) != None
    ensures
      var (body, f) := (Body(args[0]), table[Find(table, Body(args[0])[..eq]).value]);
      && (eq < |body| ==> Parse(table, args, slots) == Store(table, f, body[eq + 1..], args[1..], slots))
      && (eq == |body| && f.boolean ==> Parse(table, args, slots) == Store(table, f, "true", args[1..], slots))
      && (eq == |body| && !f.boolean && 1 < |args| ==>
            Parse(table, args, slots) == Store(table, f, args[1], args[2..], slots))
  {
    hide Equals, Find, Body, Store;
  }

  lemma ParseBare(table: seq<Flag>, st: Setting, args: seq<string>, slots: Slots)
    requires WellNamed(table) && WellSpelt(table, st) && !st.form.Joined? && args != [] && args[0] == Dashed(st)
    requires st.form.Apart? ==> 1 < |args| && args[1] == st.value
    ensures Parse(table, args, slots) ==
      Store(table, table[Find(table, st.name).value], st.value, args[|Spelt(st)|..], slots)
  {
    NameIsPlain(table, st.name);
    BodyOf(st, "");
    hide Equals, Find, Body, Store, Dashed, WellNamed, PlainName, Parse;
    assert Dashed(st) + "" == args[0] && st.name + "" == st.name;
    ParseFirst(table, args, slots, |st.name|);
  }

  lemma ParseJoined(table: seq<Flag>, st: Setting, args: seq<string>, slots: Slots)
    requires WellNamed(table) && WellSpelt(table, st)
    requires args != [] && args[0] == Dashed(st) + ("=" + st.value)
    ensures Parse(table, args, slots) ==
      Store(table, table[Find(table, st.name).value], st.value, args[1..], slots)
  {
    NameIsPlain(table, st.name);
    BodyOf(st, "=" + st.value);
    hide Equals, Find, Body, Store, Dashed, WellNamed, WellSpelt, PlainName, Parse;
    ParseFirst(table, args, slots, |st.name|);
    assert (st.name + ("=" + st.value))[|st.name| + 1..] == st.value;
  }

  /** Reading one setting off the front. */
  lemma ParseSpelt(table: seq<Flag>, st: Setting, rest: seq<string>, slots: Slots)
    requires WellNamed(table) && WellSpelt(table, st)
    ensures Parse(table, Spelt(st) + rest, slots) ==
      Store(table, table[Find(table, st.name).value], st.value, rest, slots)
  {
    hide Parse, Find, Store, Dashed, WellNamed;
    var args := Spelt(st) + rest;
    assert args[|Spelt(st)|..] == rest;
    if st.form == Joined {
      assert args[0] == Dashed(st) + ("=" + st.value);
      ParseJoined(table, st, args, slots);
    } else {
      ParseBare(table, st, args, slots);
    }
  }

  /** Parsing depends on the settings and not on how each one is spelt. */
  lemma {:induction false} SpellingIsFree(table: seq<Flag>, sts: seq<Setting>, slots: Slots)
    requires WellNamed(table) && AllWellSpelt(table, sts)
    ensures Parse(table, SpeltAll(sts), slots) == Meaning(table, sts, slots)
  {
    if sts == [] {
    } else {
      var st := sts[0];
      ParseSpelt(table, st, SpeltAll(sts[1..]), slots);
      SpellingIsFree(table, sts[1..], slots[st.name := st.value]);
    }
  }

  predicate SameSettings(a: seq<Setting>, b: seq<Setting>) {
    |a| == |b| && forall i :: 0 <= i < |a| ==> a[i].name == b[i].name && a[i].value == b[i].value
  }

  /** Respelling any occurrence leaves the outcome as it is. */
  lemma {:induction false} Respelling(table: seq<Flag>, a: seq<Setting>, b: seq<Setting>, slots: Slots)
    requires WellNamed(table) && AllWellSpelt(table, a) && AllWellSpelt(table, b) && SameSettings(a, b)
    ensures Parse(table, SpeltAll(a), slots) == Parse(table, SpeltAll(b), slots)
  {
    SpellingIsFree(table, a, slots);
    SpellingIsFree(table, b, slots);
    SameMeaning(table, a, b, slots);
  }

  lemma {:induction false} SameMeaning(table: seq<Flag>, a: seq<Setting>, b: seq<Setting>, slots: Slots)
    requires AllWellSpelt(table, a) && AllWellSpelt(table, b) && SameSettings(a, b)
    ensures Meaning(table, a, slots) == Meaning(table, b, slots)
  {
    if a == [] {
    } else {
      SameMeaning(table, a[1..], b[1..], slots[a[0].name := a[0].value]);
    }
  }

  /** The last value a list of settings gives a flag. */
  function Last(sts: seq<Setting>, name: string): Option<string> {
    if sts == [] then None
    else if sts[|sts| - 1].name == name then Some(sts[|sts| - 1].value)
    else Last(sts[..|sts| - 1], name)
  }

  lemma {:induction false} LastOfCons(sts: seq<Setting>, name: string)
    requires sts != []
    ensures Last(sts, name) ==
      if Last(sts[1..], name) != None then Last(sts[1..], name)
      else if sts[0].name == name then Some(sts[0].value) else None
  {
    if |sts| == 1 {
    } else {
      var front := sts[..|sts| - 1];
      LastOfCons(front, name);
      assert front[1..] == sts[1..][..|sts| - 2];
    }
  }

  /** Each slot ends with its last assignment, or its default when none names it. */
  lemma {:induction false} LastWins(table: seq<Flag>, sts: seq<Setting>, slots: Slots, name: string)
    requires WellNamed(table) && AllWellSpelt(table, sts)
    requires Parse(table, SpeltAll(sts), slots).Parsed?
    ensures var out := Parse(table, SpeltAll(sts), slots).slots;
      match Last(sts, name)
      case Some(v) => name in out && out[name] == v
      case None => (name in out <==> name in slots) && (name in slots ==> out[name] == slots[name])
  {
    SpellingIsFree(table, sts, slots);
    if sts == [] {
    } else {
      var slots' := slots[sts[0].name := sts[0].value];
      SpellingIsFree(table, sts[1..], slots');
      LastWins(table, sts[1..], slots', name);
      LastOfCons(sts, name);
    }
  }

  /** The dashes, the name and what is joined to it make up the argument again. */
  lemma DashedBody(arg: string, st: Setting)
    requires 2 <= |arg| && arg[0] == '-' && st.twoDashes == (arg[1] == '-')
    requires st.name == Body(arg)[..Equals(Body(arg))]
    ensures Dashed(st) + Body(arg)[|st.name|..] == arg
  {
    hide Equals;
    assert st.name + Body(arg)[|st.name|..] == Body(arg);
  }

  /** What an accepted argument list stores first, and where it goes on. */
  lemma StoredFirst(table: seq<Flag>, args: seq<string>, slots: Slots)
    requires args != [] && Parse(table, args, slots).Parsed?
    ensures 2 <= |args[0]| && args[0][0] == '-'
    ensures
      var body := Body(args[0]);
      var (eq, found) := (Equals(body), Find(table, body[..Equals(body)]));
      && found != None
      && (eq == |body| && !table[found.value].boolean ==> 1 < |args|)
      && Parse(table, args, slots) ==
           if eq < |body| then Parse(table, args[1..], slots[body[..eq] := body[eq + 1..]])
           else if table[found.value].boolean then Parse(table, args[1..], slots[body[..eq] := "true"])
           else Parse(table, args[2..], slots[body[..eq] := args[1]])
  {
    hide Equals, Find, Body;
  }

  /** An accepted argument list begins with a spelt setting. */
  lemma ReadSpelt(table: seq<Flag>, args: seq<string>, slots: Slots) returns (st: Setting, rest: seq<string>)
    requires args != [] && Parse(table, args, slots).Parsed?
    ensures WellSpelt(table, st) && args == Spelt(st) + rest && |rest| < |args|
    ensures Parse(table, args, slots) == Parse(table, rest, slots[st.name := st.value])
  {
    hide Equals, Find, Dashed, Body, Parse;
    StoredFirst(table, args, slots);
    var body := Body(args[0]);
    var eq := Equals(body);
    var name := body[..eq];
    var f := table[Find(table, name).value];
    var two := args[0][1] == '-';
    if eq < |body| {
      st, rest := Setting(name, body[eq + 1..], two, Joined), args[1..];
      assert body[eq..] == "=" + st.value;
    } else if f.boolean {
      st, rest := Setting(name, "true", two, Bare), args[1..];
      assert body[eq..] == "";
    } else {
      st, rest := Setting(name, args[1], two, Apart), args[2..];
      assert body[eq..] == "" && args == [args[0], args[1]] + rest;
    }
    DashedBody(args[0], st);
    assert Dashed(st) + "" == Dashed(st);
    assert Dashed(st) + ("=" + st.value) == Dashed(st) + "=" + st.value;
  }

  /** The accepted argument lists are exactly the spellings of settings. */
  lemma {:induction false} ParsedIsSpelt(table: seq<Flag>, args: seq<string>, slots: Slots) returns (sts: seq<Setting>)
    requires Parse(table, args, slots).Parsed?
    ensures AllWellSpelt(table, sts) && SpeltAll(sts) == args
    decreases |args|
  {
    if args == [] {
      sts := [];
    } else {
      var st, rest := ReadSpelt(table, args, slots);
      var tail := ParsedIsSpelt(table, rest, slots[st.name := st.value]);
      sts := [st] + tail;
      assert sts[1..] == tail;
    }
  }

  // ------------------------------------------------------------ other outcomes

  /** Settings in front of further arguments: these are reached exactly when every
      setting is accepted, with the slots as the settings leave them. */
  lemma {:induction false} ParseAfter(table: seq<Flag>, sts: seq<Setting>, rest: seq<string>, slots: Slots)
    requires WellNamed(table) && AllWellSpelt(table, sts)
    ensures Parse(table, SpeltAll(sts) + rest, slots) ==
      var m := Meaning(table, sts, slots); if m.Parsed? then Parse(table, rest, m.slots) else m
  {
    hide Parse, Find, Spelt;
    if sts == [] {
      assert SpeltAll(sts) + rest == rest;
    } else {
      var (st, tail) := (sts[0], SpeltAll(sts[1..]));
      assert SpeltAll(sts) + rest == Spelt(st) + (tail + rest);
      ParseSpelt(table, st, tail + rest, slots);
      ParseAfter(table, sts[1..], rest, slots[st.name := st.value]);
    }
  }

  /** The help flags, in either spelling, whatever follows and whatever the table holds. */
  lemma AsksForHelp(table: seq<Flag>, arg: string, rest: seq<string>, slots: Slots)
    requires arg == "-h" || arg == "--h" || arg == "-help" || arg == "--help"
    ensures Parse(table, [arg] + rest, slots) == Usage
  {
  }

  /** An argument that is empty, a lone dash, or without a dash in front. */
  lemma NoFlag(table: seq<Flag>, arg: string, rest: seq<string>, slots: Slots)
    requires arg == "" || arg == "-" || arg[0] != '-'
    ensures Parse(table, [arg] + rest, slots) == Positional(arg)
  {
  }

  /** A name, possibly with a joined value, that the table does not have. */
  lemma UnknownName(table: seq<Flag>, name: string, two: bool, joined: string, rest: seq<string>, slots: Slots)
    requires '=' !in name && (joined != "" ==> joined[0] == '=') && (joined == "" ==> name != "h" && name != "help")
    requires !two ==> name + joined != "" && (name + joined)[0] != '-'
    requires forall k :: 0 <= k < |table| ==> table[k].name != name
    ensures Parse(table, [(if two then "--" else "-") + (name + joined)] + rest, slots) == Undefined(name)
  {
    EqualsIs(name, joined);
    hide Equals, Find;
    var body := name + joined;
    var arg := (if two then "--" else "-") + body;
    assert Body(arg) == body && body[..|name|] == name;
    assert joined != "" ==> body[|name|] == '=';
    assert joined == "" ==> body == name;
    assert '=' !in "h" && '=' !in "help";
  }

  /** A flag that takes a value, at the end of the arguments. */
  lemma MissingValue(table: seq<Flag>, st: Setting, slots: Slots)
    requires WellNamed(table) && WellSpelt(table, st) && st.form == Apart
    ensures Parse(table, [Dashed(st)], slots) == NeedsArgument(st.name)
  {
    NameIsPlain(table, st.name);
    BodyOf(st, "");
    hide Equals, Find, Body, Dashed, WellNamed, PlainName;
    assert Dashed(st) + "" == Dashed(st) && st.name + "" == st.name;
  }
}
