/** `argvFor`: the command line that a tool call stands for, which the verb reads back. */
module Argv {
  import opened Common
  import opened ParseArgs

  datatype Value = Str(s: string) | Bool(b: bool) | Strs(ss: seq<string>) | Other

  /** An option of a verb; a flag may have a default when it is called as a tool. */
  datatype Opt = Opt(name: string, kind: Kind, fallback: Option<bool>)

  datatype Positional = Positional(name: string, words: bool)

  datatype Tool = Tool(options: seq<Opt>, positionals: seq<Positional>, required: seq<string>)

  type Args = map<string, Value>

  datatype Reason =
    | UnknownArgument(key: string)
    | MissingArgument(key: string)
    | NulByte(key: string)
    | WrongType(key: string)
    | NeedsEarlier(key: string)
    | FlagLike(key: string)

  datatype Result<T> = Good(value: T) | Bad(reason: Reason)

  /** What every JavaScript object has, own or not. */
  predicate Inherited(key: string) {
    key in {"constructor", "hasOwnProperty", "isPrototypeOf", "propertyIsEnumerable", "toLocaleString", "toString", "valueOf", "__proto__",
            "__defineGetter__", "__defineSetter__", "__lookupGetter__", "__lookupSetter__"}
  }

  /** `key in properties`. */
  predicate HasProperty(tool: Tool, key: string) {
    || Inherited(key)
    || (exists k :: 0 <= k < |tool.options| && tool.options[k].name == key)
    || (exists k :: 0 <= k < |tool.positionals| && tool.positionals[k].name == key)
  }

  predicate HasNul(v: Value) {
    match v
    case Str(s) => '\0' in s
    case Strs(ss) => exists k :: 0 <= k < |ss| && '\0' in ss[k]
    case _ => false
  }

  /** What the call says of an option: the default of a flag it leaves out. */
  function Given(o: Opt, args: Args): Option<Value> {
    if o.name in args then Some(args[o.name])
    else if o.fallback.Some? then Some(Bool(o.fallback.value))
    else None
  }

  function Inline(name: string, values: seq<string>): seq<string> {
    if values == [] then [] else ["--" + (name + "=" + values[0])] + Inline(name, values[1..])
  }

  /** The words of one option. */
  function WordsOf(o: Opt, given: Option<Value>): Result<seq<string>> {
    match given
    case None => Good([])
    case Some(v) =>
      match o.kind
      case Flag => if v.Bool? then Good(if v.b then ["--" + o.name] else []) else Bad(WrongType(o.name))
      case Many => if v.Strs? then Good(Inline(o.name, v.ss)) else Bad(WrongType(o.name))
      case Text => if v.Str? then Good(Inline(o.name, [v.s])) else Bad(WrongType(o.name))
  }

  function FlagsOf(options: seq<Opt>, args: Args): Result<seq<string>> {
    if options == [] then Good([])
    else
      match WordsOf(options[0], Given(options[0], args))
      case Bad(reason) => Bad(reason)
      case Good(words) =>
        match FlagsOf(options[1..], args)
        case Bad(reason) => Bad(reason)
        case Good(rest) => Good(words + rest)
  }

  predicate StartsWithADash(s: string) {
    s != "" && s[0] == '-'
  }

  predicate HasDash(ss: seq<string>) {
    exists k :: 0 <= k < |ss| && StartsWithADash(ss[k])
  }

  /** The texts of one positional. */
  function TextsOf(p: Positional, v: Value): Result<seq<string>> {
    if (p.words && !v.Strs?) || (!p.words && !v.Str?) then Bad(WrongType(p.name))
    else
      var given := if p.words then v.ss else [v.s];
      if HasDash(given) then Bad(FlagLike(p.name)) else Good(given)
  }

  /** The positionals in order: none may be left out in front of one that is given. */
  function ValuesOf(ps: seq<Positional>, args: Args, skipped: bool): Result<seq<string>> {
    if ps == [] then Good([])
    else if ps[0].name !in args then ValuesOf(ps[1..], args, true)
    else if skipped then Bad(NeedsEarlier(ps[0].name))
    else
      match TextsOf(ps[0], args[ps[0].name])
      case Bad(reason) => Bad(reason)
      case Good(given) =>
        match ValuesOf(ps[1..], args, skipped)
        case Bad(reason) => Bad(reason)
        case Good(rest) => Good(given + rest)
  }

  /** Whether the arguments are checked through: every key is known, every required one is there, and none holds a NUL. */
  predicate Checked(tool: Tool, args: Args) {
    && (forall key :: key in args ==> HasProperty(tool, key) && !HasNul(args[key]))
    && (forall k :: 0 <= k < |tool.required| ==> tool.required[k] in args)
  }

  /** The words behind the verb's own. */
  function ArgvFor(tool: Tool, args: Args): Option<seq<string>> {
    if !Checked(tool, args) then None
    else
      match FlagsOf(tool.options, args)
      case Bad(_) => None
      case Good(flags) =>
        match ValuesOf(tool.positionals, args, false)
        case Bad(_) => None
        case Good(values) => Some(flags + values)
  }

  // ---- read by the verb ----

  /** The options as the verb lists them. */
  function Listed(options: seq<Opt>): Options {
    if options == [] then [] else [(options[0].name, options[0].kind)] + Listed(options[1..])
  }

  predicate Nameable(options: seq<Opt>) {
    && (forall k :: 0 <= k < |options| ==> options[k].name != "" && '=' !in options[k].name)
    && (forall j, k :: 0 <= j < k < |options| ==> options[j].name != options[k].name)
  }

  lemma {:induction false} KindListed(options: seq<Opt>, k: nat)
    requires k < |options| && forall i, j :: 0 <= i < j < |options| ==> options[i].name != options[j].name
    ensures KindOf(Listed(options), options[k].name) == Some(options[k].kind)
  {
    if k > 0 {
      KindListed(options[1..], k - 1);
    }
  }

  /** What reading an option's words adds. */
  function Kept(p: Parsed, name: string, kind: Kind, values: seq<string>): Parsed
    decreases |values|
  {
    if values == [] then p else Kept(Keep(p, name, kind, values[0]), name, kind, values[1..])
  }

  function Taken(p: Parsed, o: Opt, given: Option<Value>): Parsed {
    match given
    case Some(Bool(b)) => if b && o.kind.Flag? && o.name !in p.flags then p.(flags := p.flags + [o.name]) else p
    case Some(Strs(ss)) => if o.kind.Many? then Kept(p, o.name, Many, ss) else p
    case Some(Str(s)) => if o.kind.Text? then Kept(p, o.name, Text, [s]) else p
    case _ => p
  }

  function TakenAll(p: Parsed, options: seq<Opt>, args: Args): Parsed
    decreases |options|
  {
    if options == [] then p else TakenAll(Taken(p, options[0], Given(options[0], args)), options[1..], args)
  }

  lemma InlineWord(name: string, value: string, rest: seq<string>, listed: Options, positionals: bool, p: Parsed)
    requires name != "" && '=' !in name && KindOf(listed, name).Some? && !KindOf(listed, name).value.Flag?
    ensures ReadFrom(["--" + (name + "=" + value)] + rest, listed, positionals, p)
            == ReadFrom(rest, listed, positionals, Keep(p, name, KindOf(listed, name).value, value))
  {
    var word := "--" + (name + "=" + value);
    OptionReadsBack(name, value);
    assert word[2..] == name + "=" + value;
    assert ([word] + rest)[1..] == rest;
  }

  lemma {:induction false} InlineWords(name: string, values: seq<string>, rest: seq<string>, listed: Options, positionals: bool, p: Parsed)
    requires name != "" && '=' !in name && KindOf(listed, name).Some? && !KindOf(listed, name).value.Flag?
    ensures ReadFrom(Inline(name, values) + rest, listed, positionals, p)
            == ReadFrom(rest, listed, positionals, Kept(p, name, KindOf(listed, name).value, values))
    decreases |values|
  {
    if values == [] {
      assert Inline(name, values) + rest == rest;
    } else {
      var more := Inline(name, values[1..]) + rest;
      assert Inline(name, values) + rest == ["--" + (name + "=" + values[0])] + more;
      InlineWord(name, values[0], more, listed, positionals, p);
      InlineWords(name, values[1..], rest, listed, positionals, Keep(p, name, KindOf(listed, name).value, values[0]));
    }
  }

  lemma FlagWord(name: string, rest: seq<string>, listed: Options, positionals: bool, p: Parsed)
    requires name != "" && '=' !in name && KindOf(listed, name) == Some(Flag)
    ensures ReadFrom(["--" + name] + rest, listed, positionals, p)
            == ReadFrom(rest, listed, positionals, if name in p.flags then p else p.(flags := p.flags + [name]))
  {
    var word := "--" + name;
    FlagReadsBack(name);
    assert forall c :: c in name[1..] ==> c in name;
    assert word[2..] == name;
    assert ([word] + rest)[1..] == rest;
  }

  lemma OptionWords(o: Opt, given: Option<Value>, rest: seq<string>, listed: Options, positionals: bool, p: Parsed)
    requires o.name != "" && '=' !in o.name && KindOf(listed, o.name) == Some(o.kind) && WordsOf(o, given).Good?
    ensures ReadFrom(WordsOf(o, given).value + rest, listed, positionals, p) == ReadFrom(rest, listed, positionals, Taken(p, o, given))
  {
    assert [] + rest == rest;
    if given.Some? {
      match o.kind
      case Flag => FlagWord(o.name, rest, listed, positionals, p);
      case Many => InlineWords(o.name, given.value.ss, rest, listed, positionals, p);
      case Text => InlineWords(o.name, [given.value.s], rest, listed, positionals, p);
    }
  }

  lemma {:induction false} FlagsRead(options: seq<Opt>, all: seq<Opt>, at: nat, args: Args, rest: seq<string>, positionals: bool, p: Parsed)
    requires Nameable(all) && at <= |all| && options == all[at..] && FlagsOf(options, args).Good?
    ensures ReadFrom(FlagsOf(options, args).value + rest, Listed(all), positionals, p)
            == ReadFrom(rest, Listed(all), positionals, TakenAll(p, options, args))
    decreases |options|
  {
    if options == [] {
      assert [] + rest == rest;
    } else {
      var o := options[0];
      assert o == all[at];
      KindListed(all, at);
      var words, more := WordsOf(o, Given(o, args)).value, FlagsOf(options[1..], args).value;
      assert words + more + rest == words + (more + rest);
      OptionWords(o, Given(o, args), more + rest, Listed(all), positionals, p);
      FlagsRead(options[1..], all, at + 1, args, rest, positionals, Taken(p, o, Given(o, args)));
    }
  }

  lemma NoOption(word: string)
    requires !StartsWithADash(word)
    ensures word != "--" && !("--" <= word) && !LooksLikeAnOption(word)
  {
    if word != "" {
      assert word[0] != "--"[0];
    }
  }

  lemma {:induction false} ValuesRead(values: seq<string>, listed: Options, p: Parsed)
    requires forall k :: 0 <= k < |values| ==> !StartsWithADash(values[k])
    ensures ReadFrom(values, listed, true, p) == Read(p.(positionals := p.positionals + values))
    decreases |values|
  {
    if values == [] {
      assert p.positionals + values == p.positionals;
    } else {
      var word := values[0];
      NoOption(word);
      var next := p.(positionals := p.positionals + [word]);
      assert ReadFrom(values, listed, true, p) == ReadFrom(values[1..], listed, true, next);
      ValuesRead(values[1..], listed, next);
      assert p.positionals + [word] + values[1..] == p.positionals + values;
    }
  }

  lemma {:induction false} ValuesHaveNoDash(ps: seq<Positional>, args: Args, skipped: bool)
    requires ValuesOf(ps, args, skipped).Good?
    ensures forall k :: 0 <= k < |ValuesOf(ps, args, skipped).value| ==> !StartsWithADash(ValuesOf(ps, args, skipped).value[k])
    ensures ps == [] ==> ValuesOf(ps, args, skipped).value == []
    decreases |ps|
  {
    if ps != [] {
      ValuesHaveNoDash(ps[1..], args, skipped || ps[0].name !in args);
      if ps[0].name in args && !skipped {
        assert !HasDash(TextsOf(ps[0], args[ps[0].name]).value);
      }
    }
  }

  // ---- what the verb has read ----

  /** What is known of a name that no option from there on has. */
  predicate Untouched(p: Parsed, q: Parsed, name: string) {
    && (name in q.texts <==> name in p.texts) && (name in p.texts ==> q.texts[name] == p.texts[name])
    && (name in q.flags <==> name in p.flags)
  }

  lemma {:induction false} KeptTexts(p: Parsed, name: string, kind: Kind, values: seq<string>, other: string)
    requires values != [] && (kind.Text? ==> |values| == 1)
    ensures var q := Kept(p, name, kind, values);
            && q.flags == p.flags && q.positionals == p.positionals && name in q.texts
            && q.texts[name] == (if kind.Text? || name !in p.texts then [] else p.texts[name]) + values
            && (other != name ==> Untouched(p, q, other))
    decreases |values|
  {
    var next := Keep(p, name, kind, values[0]);
    var before := if kind.Text? || name !in p.texts then [] else p.texts[name];
    assert values == [values[0]] + values[1..];
    if |values| > 1 {
      KeptTexts(next, name, kind, values[1..], other);
      assert before + [values[0]] + values[1..] == before + values;
    } else {
      assert values[1..] == [];
    }
  }

  /** What one option says is what was given of it, if nothing was known of it. */
  predicate SaysGiven(q: Parsed, o: Opt, given: Option<Value>) {
    match o.kind
    case Flag => (o.name in q.flags <==> given == Some(Bool(true))) && o.name !in q.texts
    case Text => if given.Some? then o.name in q.texts && |q.texts[o.name]| == 1 && given == Some(Str(q.texts[o.name][0])) else o.name !in q.texts
    case Many => if given.Some? && given.value != Strs([]) then o.name in q.texts && given == Some(Strs(q.texts[o.name])) else o.name !in q.texts
  }

  lemma TakenSays(p: Parsed, o: Opt, given: Option<Value>, other: string)
    requires WordsOf(o, given).Good? && o.name !in p.texts && o.name !in p.flags
    ensures SaysGiven(Taken(p, o, given), o, given) && Taken(p, o, given).positionals == p.positionals
    ensures other != o.name ==> Untouched(p, Taken(p, o, given), other)
  {
    if given.Some? && o.kind.Many? && given.value.ss != [] {
      KeptTexts(p, o.name, Many, given.value.ss, other);
      assert [] + given.value.ss == given.value.ss;
    } else if given.Some? && o.kind.Text? {
      KeptTexts(p, o.name, Text, [given.value.s], other);
    }
  }

  lemma {:induction false} OthersUntouched(p: Parsed, options: seq<Opt>, args: Args, name: string)
    requires FlagsOf(options, args).Good? && Fresh(p, options)
    requires forall k :: 0 <= k < |options| ==> options[k].name != name
    requires forall j, k :: 0 <= j < k < |options| ==> options[j].name != options[k].name
    ensures Untouched(p, TakenAll(p, options, args), name) && TakenAll(p, options, args).positionals == p.positionals
    decreases |options|
  {
    if options != [] {
      var o := options[0];
      TakenSays(p, o, Given(o, args), name);
      FreshStays(p, options, args);
      OthersUntouched(Taken(p, o, Given(o, args)), options[1..], args, name);
    }
  }

  /** Nothing is known of the options yet. */
  predicate Fresh(p: Parsed, options: seq<Opt>) {
    forall k :: 0 <= k < |options| ==> options[k].name !in p.texts && options[k].name !in p.flags
  }

  lemma FreshStays(p: Parsed, options: seq<Opt>, args: Args)
    requires options != [] && FlagsOf(options, args).Good? && Fresh(p, options)
    requires forall j, k :: 0 <= j < k < |options| ==> options[j].name != options[k].name
    ensures Fresh(Taken(p, options[0], Given(options[0], args)), options[1..])
  {
    forall k | 0 <= k < |options[1..]|
      ensures options[1..][k].name !in Taken(p, options[0], Given(options[0], args)).texts
      ensures options[1..][k].name !in Taken(p, options[0], Given(options[0], args)).flags
    {
      TakenSays(p, options[0], Given(options[0], args), options[k + 1].name);
    }
  }

  lemma {:induction false} EachSaysGiven(p: Parsed, options: seq<Opt>, args: Args, at: nat)
    requires FlagsOf(options, args).Good? && Fresh(p, options) && at < |options|
    requires forall j, k :: 0 <= j < k < |options| ==> options[j].name != options[k].name
    ensures SaysGiven(TakenAll(p, options, args), options[at], Given(options[at], args))
    decreases |options|
  {
    var o := options[0];
    var next := Taken(p, o, Given(o, args));
    FreshStays(p, options, args);
    if at > 0 {
      EachSaysGiven(next, options[1..], args, at - 1);
    } else {
      TakenSays(p, o, Given(o, args), o.name);
      OthersUntouched(next, options[1..], args, o.name);
    }
  }

  /**
   For option names that are not empty and hold no `=`, the verb reads any command line that is made for it without an error: each option says what the call gave,
   or its default, repeated values in their order, and the positionals are the call's, whatever the values hold.
   */
  lemma TheVerbReadsTheCall(tool: Tool, args: Args)
    requires Nameable(tool.options) && ArgvFor(tool, args).Some?
    ensures var outcome := Parse(ArgvFor(tool, args).value, Listed(tool.options), tool.positionals != []);
            && outcome.Read?
            && (forall k :: 0 <= k < |tool.options| ==> SaysGiven(outcome.parsed, tool.options[k], Given(tool.options[k], args)))
            && ValuesOf(tool.positionals, args, false) == Good(outcome.parsed.positionals)
  {
    var options := tool.options;
    var values := ValuesOf(tool.positionals, args, false).value;
    assert options == options[0..];
    FlagsRead(options, options, 0, args, values, tool.positionals != [], NOTHING);
    ValuesHaveNoDash(tool.positionals, args, false);
    var q := TakenAll(NOTHING, options, args);
    if tool.positionals != [] {
      ValuesRead(values, Listed(options), q);
    }
    PositionalsAreNone(options, args);
    assert [] + values == values;
    forall k | 0 <= k < |options|
      ensures SaysGiven(q, options[k], Given(options[k], args))
    {
      EachSaysGiven(NOTHING, options, args, k);
    }
  }

  lemma {:induction false} TakenAllKeepsPositionals(p: Parsed, options: seq<Opt>, args: Args)
    requires FlagsOf(options, args).Good?
    ensures TakenAll(p, options, args).positionals == p.positionals
    decreases |options|
  {
    if options != [] {
      var o := options[0];
      var given := Given(o, args);
      if given.Some? && o.kind.Many? && given.value.ss != [] {
        KeptTexts(p, o.name, Many, given.value.ss, "");
      } else if given.Some? && o.kind.Text? {
        KeptTexts(p, o.name, Text, [given.value.s], "");
      }
      TakenAllKeepsPositionals(Taken(p, o, given), options[1..], args);
    }
  }

  lemma PositionalsAreNone(options: seq<Opt>, args: Args)
    requires FlagsOf(options, args).Good?
    ensures TakenAll(NOTHING, options, args).positionals == []
  {
    TakenAllKeepsPositionals(NOTHING, options, args);
  }

  // ---- the loops that build the command line ----

  function Before(words: seq<string>, rest: Result<seq<string>>): Result<seq<string>> {
    match rest
    case Bad(reason) => Bad(reason)
    case Good(more) => Good(words + more)
  }

  lemma BeforeBoth(a: seq<string>, b: seq<string>, rest: Result<seq<string>>)
    ensures Before(a, Before(b, rest)) == Before(a + b, rest)
  {
    if rest.Good? {
      assert a + (b + rest.value) == a + b + rest.value;
    }
  }

  method BuildFlags(options: seq<Opt>, args: Args) returns (flags: Result<seq<string>>)
    ensures flags == FlagsOf(options, args)
  {
    var words: seq<string> := [];
    assert options[0..] == options;
    assert Before([], FlagsOf(options, args)) == FlagsOf(options, args) by {
      if FlagsOf(options, args).Good? {
        assert [] + FlagsOf(options, args).value == FlagsOf(options, args).value;
      }
    }
    for k := 0 to |options|
      invariant FlagsOf(options, args) == Before(words, FlagsOf(options[k..], args))
    {
      var o := options[k];
      assert options[k..][0] == o && options[k..][1..] == options[k + 1..];
      var more := WordsOf(o, Given(o, args));
      if more.Bad? {
        return Bad(more.reason);
      }
      BeforeBoth(words, more.value, FlagsOf(options[k + 1..], args));
      words := words + more.value;
    }
    assert options[|options|..] == [] && words + [] == words;
    flags := Good(words);
  }

  method BuildValues(ps: seq<Positional>, args: Args) returns (values: Result<seq<string>>)
    ensures values == ValuesOf(ps, args, false)
  {
    var words: seq<string> := [];
    var skipped := false;
    assert ps[0..] == ps;
    assert Before([], ValuesOf(ps, args, false)) == ValuesOf(ps, args, false) by {
      if ValuesOf(ps, args, false).Good? {
        assert [] + ValuesOf(ps, args, false).value == ValuesOf(ps, args, false).value;
      }
    }
    for k := 0 to |ps|
      invariant ValuesOf(ps, args, false) == Before(words, ValuesOf(ps[k..], args, skipped))
    {
      var p := ps[k];
      assert ps[k..][0] == p && ps[k..][1..] == ps[k + 1..];
      if p.name !in args {
        skipped := true;
      } else {
        if skipped {
          return Bad(NeedsEarlier(p.name));
        }
        var more := TextsOf(p, args[p.name]);
        if more.Bad? {
          return Bad(more.reason);
        }
        BeforeBoth(words, more.value, ValuesOf(ps[k + 1..], args, skipped));
        words := words + more.value;
      }
    }
    assert ps[|ps|..] == [] && words + [] == words;
    values := Good(words);
  }

  /** `argvFor`. */
  method BuildArgv(tool: Tool, args: Args) returns (argv: Option<seq<string>>)
    ensures argv == ArgvFor(tool, args)
  {
    if !Checked(tool, args) {
      return None;
    }
    var flags := BuildFlags(tool.options, args);
    if flags.Bad? {
      return None;
    }
    var values := BuildValues(tool.positionals, args);
    if values.Bad? {
      return None;
    }
    argv := Some(flags.value + values.value);
  }
}
