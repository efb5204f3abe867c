/** `parseArgs` with long options only: what every verb reads its command line with. */
module ParseArgs {
  import opened Common

  datatype Kind = Text | Many | Flag

  type Options = seq<(string, Kind)>

  datatype Parsed = Parsed(texts: map<string, seq<string>>, flags: seq<string>, positionals: seq<string>)

  datatype Error = Unknown(name: string) | Unexpected(word: string) | NoArgument(name: string) | Missing(name: string) | Ambiguous(name: string)

  datatype Outcome = Read(parsed: Parsed) | Refused(error: Error)

  predicate LooksLikeAnOption(word: string) {
    |word| > 1 && word[0] == '-'
  }

  function KindOf(options: Options, name: string): Option<Kind> {
    if options == [] then None else if options[0].0 == name then Some(options[0].1) else KindOf(options[1..], name)
  }

  /** Where the first `=` is, or the length. */
  function EqualsAt(long: string): (r: nat)
    ensures r <= |long|
    ensures r < |long| ==> long[r] == '='
    ensures forall k :: 0 <= k < r ==> long[k] != '='
  {
    if long == [] || long[0] == '=' then 0 else 1 + EqualsAt(long[1..])
  }

  /** `name`, or `name=value`: a name of nothing makes the whole word the name. */
  function NameAndValue(long: string): (string, Option<string>) {
    var at := EqualsAt(long);
    if 0 < at < |long| then (long[..at], Some(long[at + 1..])) else (long, None)
  }

  function Keep(p: Parsed, name: string, kind: Kind, value: string): Parsed {
    var before := if kind.Text? || name !in p.texts then [] else p.texts[name];
    p.(texts := p.texts[name := before + [value]])
  }

  /** The words from here on. */
  function ReadFrom(words: seq<string>, options: Options, positionals: bool, p: Parsed): Outcome
    decreases |words|
  {
    if words == [] then Read(p)
    else
      var word, rest := words[0], words[1..];
      if word == "--" then
        (if rest != [] && !positionals then Refused(Unexpected(rest[0])) else Read(p.(positionals := p.positionals + rest)))
      else if !("--" <= word) then
        (if LooksLikeAnOption(word) then Refused(Unknown(word[..2]))
         else if !positionals then Refused(Unexpected(word))
         else ReadFrom(rest, options, positionals, p.(positionals := p.positionals + [word])))
      else
        var (name, inline) := NameAndValue(word[2..]);
        match KindOf(options, name)
        case None => Refused(Unknown("--" + name))
        case Some(Flag) =>
          if inline.Some? then Refused(NoArgument(name))
          else ReadFrom(rest, options, positionals, if name in p.flags then p else p.(flags := p.flags + [name]))
        case Some(kind) =>
          if inline.Some? then ReadFrom(rest, options, positionals, Keep(p, name, kind, inline.value))
          else if rest == [] then Refused(Missing(name))
          else if LooksLikeAnOption(rest[0]) then Refused(Ambiguous(name))
          else ReadFrom(rest[1..], options, positionals, Keep(p, name, kind, rest[0]))
  }

  const NOTHING := Parsed(map[], [], [])

  function Parse(words: seq<string>, options: Options, positionals: bool): Outcome {
    ReadFrom(words, options, positionals, NOTHING)
  }

  /** An option's words give its name and its value back exactly when the name is not empty and holds no `=`. */
  lemma OptionReadsBack(name: string, value: string)
    ensures NameAndValue(name + "=" + value) == (name, Some(value)) <==> name != "" && '=' !in name
  {
    var long := name + "=" + value;
    var at := EqualsAt(long);
    if '=' in name {
      var k :| 0 <= k < |name| && name[k] == '=';
      assert long[k] == '=';
      assert at <= k;
    } else {
      assert forall k :: 0 <= k < |name| ==> long[k] == name[k] && name[k] in name;
      assert long[|name|] == '=';
      assert at == |name|;
      assert long[..at] == name && long[at + 1..] == value;
    }
  }

  /** And a flag's word gives its name back exactly when it holds no `=`, or begins with one; the empty name ends the options. */
  lemma FlagReadsBack(name: string)
    ensures NameAndValue(name) == (name, None) <==> name == "" || name[0] == '=' || '=' !in name
  {
    var at := EqualsAt(name);
    assert at < |name| ==> name[at] in name;
    assert '=' !in name ==> at == |name|;
  }

  /** `read`: the words consumed one by one, an option with a separate value taking two. */
  method ReadWords(args: seq<string>, options: Options, positionals: bool) returns (outcome: Outcome)
    ensures outcome == Parse(args, options, positionals)
  {
    var p := NOTHING;
    var k: nat := 0;
    while k < |args|
      invariant k <= |args|
      invariant ReadFrom(args[k..], options, positionals, p) == Parse(args, options, positionals)
    {
      var word := args[k];
      assert args[k..][0] == word && args[k..][1..] == args[k + 1..];
      k := k + 1;
      if word == "--" {
        if k < |args| && !positionals {
          return Refused(Unexpected(args[k]));
        }
        return Read(p.(positionals := p.positionals + args[k..]));
      }
      if !("--" <= word) {
        if LooksLikeAnOption(word) {
          return Refused(Unknown(word[..2]));
        }
        if !positionals {
          return Refused(Unexpected(word));
        }
        p := p.(positionals := p.positionals + [word]);
      } else {
        var (name, inline) := NameAndValue(word[2..]);
        match KindOf(options, name) {
          case None => return Refused(Unknown("--" + name));
          case Some(Flag) =>
            if inline.Some? {
              return Refused(NoArgument(name));
            }
            p := if name in p.flags then p else p.(flags := p.flags + [name]);
          case Some(kind) =>
            if inline.Some? {
              p := Keep(p, name, kind, inline.value);
            } else {
              if k == |args| {
                return Refused(Missing(name));
              }
              if LooksLikeAnOption(args[k]) {
                return Refused(Ambiguous(name));
              }
              p := Keep(p, name, kind, args[k]);
              assert args[k..][1..] == args[k + 1..];
              k := k + 1;
            }
        }
      }
    }
    outcome := Read(p);
  }
}
