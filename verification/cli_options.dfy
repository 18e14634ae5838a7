/** The command-line option parser, over an arbitrary option table, and the normal form of an
    argument list. */
module CliOptions {
  import opened Common

  /** An option; '\0' is no short name, no allowed values means that any value is. */
  datatype OptionSpec = OptionSpec(longName: string, shortName: char, takesValue: bool, allowedValues: seq<string>)

  datatype ParseStatus = Done | ShowHelp | ShowHelpVerbose | ShowVersion | ShowCompletion | Failed

  datatype ParseResult<C> = ParseResult(config: Option<C>, status: ParseStatus, errorMessage: string)

  /** The table, the default configuration, and what applying option i with a value does; an
      application may throw. */
  datatype Parser<!C> = Parser(specs: seq<OptionSpec>, initial: C, apply: (C, nat, string) -> Result<C>)

  const NO_NAME: char := 0 as char

  // ---- Lookup and validation ----

  function FindLong(specs: seq<OptionSpec>, name: string): (r: Option<nat>)
    ensures r.Some? ==> r.value < |specs|
  {
    if specs == [] then None
    else if specs[0].longName == name then Some(0)
    else
      match FindLong(specs[1..], name)
      case Some(i) => Some(i + 1)
      case None => None
  }

  function FirstShort(specs: seq<OptionSpec>, c: char): (r: Option<nat>)
    ensures r.Some? ==> r.value < |specs| && specs[r.value].shortName == c
  {
    if specs == [] then None
    else if specs[0].shortName == c then Some(0)
    else
      match FirstShort(specs[1..], c)
      case Some(i) => Some(i + 1)
      case None => None
  }

  function FindShort(specs: seq<OptionSpec>, c: char): (r: Option<nat>)
    ensures r.Some? ==> r.value < |specs| && specs[r.value].shortName == c && c != NO_NAME
  {
    if c == NO_NAME then None else FirstShort(specs, c)
  }

  /** The first option of the table with the name, exactly when there is one. */
  lemma {:induction false} FindLongIsFirst(specs: seq<OptionSpec>, name: string)
    ensures var r := FindLong(specs, name);
            var before := if r.Some? then r.value else |specs|;
            && (forall i :: 0 <= i < before ==> specs[i].longName != name)
            && (r.Some? ==> specs[r.value].longName == name)
  {
    if specs != [] && specs[0].longName != name {
      FindLongIsFirst(specs[1..], name);
      assert forall i :: 0 < i < |specs| ==> specs[i] == specs[1..][i - 1];
    }
  }

  lemma {:induction false} FirstShortIsFirst(specs: seq<OptionSpec>, c: char)
    ensures var r := FirstShort(specs, c);
            forall i :: 0 <= i < (if r.Some? then r.value else |specs|) ==> specs[i].shortName != c
  {
    if specs != [] && specs[0].shortName != c {
      FirstShortIsFirst(specs[1..], c);
      assert forall i :: 0 < i < |specs| ==> specs[i] == specs[1..][i - 1];
    }
  }

  /** The same for letters; the letter that stands for "no short name" finds nothing. */
  lemma FindShortIsFirst(specs: seq<OptionSpec>, c: char)
    ensures var r := FindShort(specs, c);
            && (r.Some? <==> c != 0 as char && exists i :: 0 <= i < |specs| && specs[i].shortName == c)
            && (r.Some? ==> forall i :: 0 <= i < r.value ==> specs[i].shortName != c)
  {
    FirstShortIsFirst(specs, c);
  }

  function ListAllowed(acc: string, values: seq<string>): string
    decreases values
  {
    if values == [] then acc
    else ListAllowed((if acc == "" then acc else acc + ", ") + values[0], values[1..])
  }

  /** The error for a value, if it is not allowed. */
  function ValidateValue(spec: OptionSpec, value: string): Option<string> {
    if spec.allowedValues == [] || value in spec.allowedValues then None
    else
      Some("Invalid value '" + value + "' for '--" + spec.longName + "'. Allowed: "
           + ListAllowed("", spec.allowedValues))
  }

  /** Validate if the option takes a value, then apply. */
  function Use<C>(p: Parser<C>, config: C, i: nat, value: string): Result<C>
    requires i < |p.specs|
  {
    var invalid := if p.specs[i].takesValue then ValidateValue(p.specs[i], value) else None;
    match invalid
    case Some(message) => Err(message)
    case None => p.apply(config, i, value)
  }

  // ---- Parsing as a function ----

  function Fail<C>(message: string): ParseResult<C> {
    ParseResult(None, Failed, message)
  }

  function Stop<C>(status: ParseStatus): ParseResult<C> {
    ParseResult(None, status, "")
  }

  predicate IsHelpOrEnd(arg: string) {
    arg in {"--help", "-h", "--help-verbose", "--version", "-V", "--"}
  }

  function HelpOrEnd<C>(arg: string, config: C): ParseResult<C>
    requires IsHelpOrEnd(arg)
  {
    if arg == "--help" || arg == "-h" then Stop(ShowHelp)
    else if arg == "--help-verbose" then Stop(ShowHelpVerbose)
    else if arg == "--version" || arg == "-V" then Stop(ShowVersion)
    else ParseResult(Some(config), Done, "")
  }

  predicate IsLong(arg: string) {
    "--" <= arg
  }

  predicate IsShort(arg: string) {
    |arg| > 1 && arg[0] == '-' && !IsLong(arg)
  }

  function ParseFrom<C>(p: Parser<C>, args: seq<string>, config: C): ParseResult<C>
    decreases |args|, 0
  {
    if args == [] then ParseResult(Some(config), Done, "")
    else
      var arg := args[0];
      if IsHelpOrEnd(arg) then HelpOrEnd(arg, config)
      else if IsLong(arg) then ParseLong(p, arg[2..], args[1..], config)
      else if IsShort(arg) then ParseBundle(p, arg[1..], args[1..], config)
      else Fail("Unexpected positional argument '" + arg + "'")
  }

  function ParseLong<C>(p: Parser<C>, name: string, rest: seq<string>, config: C): ParseResult<C>
    decreases |rest|, 1
  {
    match FindLong(p.specs, name)
    case None => Fail("Unknown option '--" + name + "'")
    case Some(i) =>
      if p.specs[i].takesValue && rest == [] then Fail("Option '--" + name + "' requires a value")
      else
        var value := if p.specs[i].takesValue then rest[0] else "";
        var rest' := if p.specs[i].takesValue then rest[1..] else rest;
        match Use(p, config, i, value)
        case Err(message) => Fail(message)
        case Ok(config') => ParseFrom(p, rest', config')
  }

  /** The letters of a short argument that are still to be read. */
  function ParseBundle<C>(p: Parser<C>, letters: string, rest: seq<string>, config: C): ParseResult<C>
    decreases |rest|, 1 + |letters|
  {
    if letters == "" then ParseFrom(p, rest, config)
    else
      match FindShort(p.specs, letters[0])
      case None => Fail("Unknown option '-" + [letters[0]] + "'")
      case Some(i) =>
        if !p.specs[i].takesValue then
          match Use(p, config, i, "")
          case Err(message) => Fail(message)
          case Ok(config') => ParseBundle(p, letters[1..], rest, config')
        else if |letters| > 1 then
          match Use(p, config, i, letters[1..])
          case Err(message) => Fail(message)
          case Ok(config') => ParseFrom(p, rest, config')
        else if rest == [] then Fail("Option '-" + [letters[0]] + "' requires a value")
        else
          match Use(p, config, i, rest[0])
          case Err(message) => Fail(message)
          case Ok(config') => ParseFrom(p, rest[1..], config')
  }

  /** The whole command line, the program's name first. */
  function Parse<C>(p: Parser<C>, completing: bool, args: seq<string>): ParseResult<C> {
    if completing then Stop(ShowCompletion)
    else if |args| <= 1 then ParseResult(Some(p.initial), Done, "")
    else ParseFrom(p, args[1..], p.initial)
  }

  // ---- The nested loops ----

  method ParseImpl<C>(p: Parser<C>, completing: bool, args: seq<string>) returns (result: ParseResult<C>)
    ensures result == Parse(p, completing, args)
  {
    hide Use, FindShort, FindLong, ValidateValue;
    var config := p.initial;
    if completing {
      return Stop(ShowCompletion);
    }
    if |args| <= 1 {
      return ParseResult(Some(config), Done, "");
    }
    var i := 1;
    while i < |args|
      invariant 1 <= i <= |args|
      invariant ParseFrom(p, args[i..], config) == ParseFrom(p, args[1..], p.initial)
      decreases |args| - i
    {
      var arg := args[i];
      assert args[i..][1..] == args[i + 1..];
      if arg == "--help" || arg == "-h" {
        return Stop(ShowHelp);
      }
      if arg == "--help-verbose" {
        return Stop(ShowHelpVerbose);
      }
      if arg == "--version" || arg == "-V" {
        return Stop(ShowVersion);
      }
      if arg == "--" {
        break;
      }
      if IsLong(arg) {
        var name := arg[2..];
        var found := FindLong(p.specs, name);
        if found.None? {
          return Fail("Unknown option '--" + name + "'");
        }
        var value := "";
        if p.specs[found.value].takesValue {
          if i + 1 >= |args| {
            return Fail("Option '--" + name + "' requires a value");
          }
          i := i + 1;
          value := args[i];
        }
        var used := Use(p, config, found.value, value);
        if used.Err? {
          return Fail(used.message);
        }
        config := used.value;
      } else if |arg| > 1 && arg[0] == '-' {
        var pos := 1;
        ghost var total, start := ParseFrom(p, args[1..], p.initial), i;
        while pos < |arg|
          invariant start <= i < |args| && 1 <= pos <= |arg|
          invariant ParseBundle(p, arg[pos..], args[i + 1..], config) == total
          decreases |arg| - pos
        {
          var shortOpt := arg[pos];
          assert arg[pos..][1..] == arg[pos + 1..];
          var found := FindShort(p.specs, shortOpt);
          if found.None? {
            return Fail("Unknown option '-" + [shortOpt] + "'");
          }
          var value := "";
          if p.specs[found.value].takesValue {
            if pos + 1 < |arg| {
              value := arg[pos + 1..];
              pos := |arg| - 1;
            } else {
              if i + 1 >= |args| {
                return Fail("Option '-" + [shortOpt] + "' requires a value");
              }
              i := i + 1;
              value := args[i];
            }
          }
          var used := Use(p, config, found.value, value);
          if used.Err? {
            return Fail(used.message);
          }
          config := used.value;
          pos := pos + 1;
        }
      } else {
        return Fail("Unexpected positional argument '" + arg + "'");
      }
      i := i + 1;
    }
    result := ParseResult(Some(config), Done, "");
  }

  // ---- The normal form ----

  /** The letter can stand alone: "-h" and "-V" are reserved, and "--" ends the options. */
  predicate CanStandAlone(c: char) {
    c !in {'h', 'V', '-'}
  }

  /** Every option letter of the bundle is known and can stand alone. */
  predicate Splittable(specs: seq<OptionSpec>, letters: string) {
    letters == "" ||
    match FindShort(specs, letters[0])
    case None => false
    case Some(i) =>
      CanStandAlone(letters[0]) && (specs[i].takesValue || Splittable(specs, letters[1..]))
  }

  /** One argument per letter; a value attached to the last option becomes its own argument. */
  function Split(specs: seq<OptionSpec>, letters: string): seq<string> {
    if letters == "" then []
    else
      var single := ['-', letters[0]];
      match FindShort(specs, letters[0])
      case None => [single] + Split(specs, letters[1..])
      case Some(i) =>
        if !specs[i].takesValue then [single] + Split(specs, letters[1..])
        else if |letters| > 1 then [single, letters[1..]]
        else [single]
  }

  /** The bundle ends in an option whose value is the next argument. */
  predicate TakesNext(specs: seq<OptionSpec>, letters: string) {
    letters != "" &&
    match FindShort(specs, letters[0])
    case None => false
    case Some(i) => if specs[i].takesValue then |letters| == 1 else TakesNext(specs, letters[1..])
  }

  /** The argument list with every splittable bundle split; values stay as they are. */
  function Normalize(specs: seq<OptionSpec>, args: seq<string>): seq<string>
    decreases |args|, 0
  {
    if args == [] || IsHelpOrEnd(args[0]) then args
    else if IsLong(args[0]) then
      match FindLong(specs, args[0][2..])
      case None => args
      case Some(i) => [args[0]] + NormalizeAfter(specs, specs[i].takesValue, args[1..])
    else if IsShort(args[0]) then
      var letters := args[0][1..];
      (if Splittable(specs, letters) then Split(specs, letters) else [args[0]])
      + NormalizeAfter(specs, TakesNext(specs, letters), args[1..])
    else args
  }

  function NormalizeAfter(specs: seq<OptionSpec>, takesNext: bool, rest: seq<string>): seq<string>
    decreases |rest|, 1
  {
    if !takesNext then Normalize(specs, rest)
    else if rest == [] then []
    else [rest[0]] + Normalize(specs, rest[1..])
  }

  /** A letter alone reads as it does at the end of a bundle. */
  lemma SingleLetter<C>(p: Parser<C>, c: char, rest: seq<string>, config: C)
    requires CanStandAlone(c)
    ensures ParseFrom(p, [['-', c]] + rest, config) == ParseBundle(p, [c], rest, config)
  {
    var arg := ['-', c];
    assert arg[1] == c && arg[1..] == [c];
    assert !IsHelpOrEnd(arg) by {
      assert "-h"[1] == 'h' && "-V"[1] == 'V' && "--"[1] == '-';
    }
    assert !IsLong(arg) by {
      assert "--"[1] == '-';
    }
    assert ([arg] + rest)[1..] == rest;
  }

  /** Reading the letters of a bundle one argument at a time is reading the bundle. */
  lemma {:induction false} SplitPreserves<C>(p: Parser<C>, letters: string, rest: seq<string>, config: C)
    requires Splittable(p.specs, letters)
    ensures ParseFrom(p, Split(p.specs, letters) + rest, config) == ParseBundle(p, letters, rest, config)
    decreases |letters|
  {
    if letters == "" {
      assert [] + rest == rest;
    } else {
      hide ParseFrom, Use;
      var c := letters[0];
      var i := FindShort(p.specs, c).value;
      var single: string := ['-', c];
      if !p.specs[i].takesValue {
        var tail := Split(p.specs, letters[1..]) + rest;
        assert Split(p.specs, letters) + rest == [single] + tail;
        SingleLetter(p, c, tail, config);
        FlagBundle(p, c, tail, config);
        match Use(p, config, i, "")
        case Err(_) =>
        case Ok(config') => SplitPreserves(p, letters[1..], rest, config');
      } else if |letters| > 1 {
        assert Split(p.specs, letters) + rest == [single] + ([letters[1..]] + rest);
        SingleLetter(p, c, [letters[1..]] + rest, config);
        assert ([letters[1..]] + rest)[1..] == rest;
      } else {
        assert letters == [c] && Split(p.specs, letters) + rest == [single] + rest;
        SingleLetter(p, c, rest, config);
      }
    }
  }

  lemma FlagBundle<C>(p: Parser<C>, c: char, rest: seq<string>, config: C)
    requires FindShort(p.specs, c).Some? && !p.specs[FindShort(p.specs, c).value].takesValue
    ensures ParseBundle(p, [c], rest, config) ==
            var used := Use(p, config, FindShort(p.specs, c).value, "");
            if used.Err? then Fail(used.message) else ParseFrom(p, rest, used.value)
  {
    hide Use, ParseFrom;
    assert [c][1..] == "";
  }

  /** Normalizing what follows a bundle does not change how the bundle reads. */
  lemma {:induction false} BundleThenNormal<C>(p: Parser<C>, letters: string, rest: seq<string>, config: C)
    ensures ParseBundle(p, letters, NormalizeAfter(p.specs, TakesNext(p.specs, letters), rest), config) ==
            ParseBundle(p, letters, rest, config)
    decreases |rest|, 1 + |letters|
  {
    hide Use, Normalize, ParseFrom;
    if letters == "" {
      NormalizePreserves(p, rest, config);
    } else {
      match FindShort(p.specs, letters[0])
      case None =>
      case Some(i) =>
        if !p.specs[i].takesValue {
          match Use(p, config, i, "")
          case Err(_) =>
          case Ok(config') => BundleThenNormal(p, letters[1..], rest, config');
        } else if |letters| > 1 {
          match Use(p, config, i, letters[1..])
          case Err(_) =>
          case Ok(config') => NormalizePreserves(p, rest, config');
        } else if rest != [] {
          assert ([rest[0]] + Normalize(p.specs, rest[1..]))[1..] == Normalize(p.specs, rest[1..]);
          match Use(p, config, i, rest[0])
          case Err(_) =>
          case Ok(config') => NormalizePreserves(p, rest[1..], config');
        }
    }
  }

  lemma {:induction false} LongThenNormal<C>(p: Parser<C>, name: string, rest: seq<string>, config: C)
    requires FindLong(p.specs, name).Some?
    ensures ParseLong(p, name, NormalizeAfter(p.specs, p.specs[FindLong(p.specs, name).value].takesValue, rest), config) ==
            ParseLong(p, name, rest, config)
    decreases |rest|, 1
  {
    hide Use, Normalize, ParseFrom;
    var i := FindLong(p.specs, name).value;
    if !p.specs[i].takesValue {
      match Use(p, config, i, "")
      case Err(_) =>
      case Ok(config') => NormalizePreserves(p, rest, config');
    } else if rest != [] {
      assert ([rest[0]] + Normalize(p.specs, rest[1..]))[1..] == Normalize(p.specs, rest[1..]);
      match Use(p, config, i, rest[0])
      case Err(_) =>
      case Ok(config') => NormalizePreserves(p, rest[1..], config');
    }
  }

  /** Splitting bundles and detaching values changes neither status, nor configuration, nor error
      message, for every table, every argument list and every outcome of validation and
      application. */
  lemma {:induction false} NormalizePreserves<C>(p: Parser<C>, args: seq<string>, config: C)
    ensures ParseFrom(p, Normalize(p.specs, args), config) == ParseFrom(p, args, config)
    decreases |args|, 0
  {
    hide NormalizeAfter, ParseBundle, ParseLong, Split, TakesNext, Splittable;
    if args != [] && !IsHelpOrEnd(args[0]) {
      var arg, rest := args[0], args[1..];
      if IsLong(arg) {
        match FindLong(p.specs, arg[2..])
        case None =>
        case Some(i) =>
          LongThenNormal(p, arg[2..], rest, config);
          var rest' := NormalizeAfter(p.specs, p.specs[i].takesValue, rest);
          assert ([arg] + rest')[1..] == rest';
      } else if IsShort(arg) {
        var letters := arg[1..];
        var rest' := NormalizeAfter(p.specs, TakesNext(p.specs, letters), rest);
        BundleThenNormal(p, letters, rest, config);
        if Splittable(p.specs, letters) {
          SplitPreserves(p, letters, rest', config);
        } else {
          assert ([arg] + rest')[1..] == rest';
        }
      }
    }
  }

  /** The result of the whole command line is that of its normal form. */
  lemma NormalFormParsesAlike<C>(p: Parser<C>, completing: bool, args: seq<string>)
    requires args != []
    ensures Parse(p, completing, [args[0]] + Normalize(p.specs, args[1..])) == Parse(p, completing, args)
  {
    hide ParseFrom;
    var normal := [args[0]] + Normalize(p.specs, args[1..]);
    assert normal[1..] == Normalize(p.specs, args[1..]);
    NormalizePreserves(p, args[1..], p.initial);
    if |args| == 1 {
      assert args[1..] == [];
    } else if |normal| == 1 {
      NormalizeKeepsSome(p.specs, args[1..]);
    }
  }

  /** A single letter that can stand alone is its own normal form. */
  lemma SingleIsNormal(specs: seq<OptionSpec>, c: char, tail: seq<string>)
    requires FindShort(specs, c).Some? && CanStandAlone(c)
    ensures Normalize(specs, [['-', c]] + tail) ==
            [['-', c]] + NormalizeAfter(specs, specs[FindShort(specs, c).value].takesValue, tail)
  {
    hide NormalizeAfter;
    var arg: string := ['-', c];
    assert arg[1..] == [c] && [c][1..] == "";
    assert "-h"[1] == 'h' && "-V"[1] == 'V' && "--"[1] == '-' && arg[1] == c;
    assert !IsHelpOrEnd(arg) && !IsLong(arg);
    assert ([arg] + tail)[1..] == tail;
    assert Split(specs, "") == [] && Splittable(specs, "") && !TakesNext(specs, "");
    assert Split(specs, [c]) == [arg] && Splittable(specs, [c]);
    assert TakesNext(specs, [c]) == specs[FindShort(specs, c).value].takesValue;
  }

  lemma AfterByCases(specs: seq<OptionSpec>, v: string, tail: seq<string>)
    ensures NormalizeAfter(specs, false, tail) == Normalize(specs, tail)
    ensures NormalizeAfter(specs, true, [v] + tail) == [v] + Normalize(specs, tail)
  {
    hide Normalize;
    assert ([v] + tail)[1..] == tail;
  }

  lemma {:induction false} SplitIsNormal(specs: seq<OptionSpec>, letters: string, tail: seq<string>)
    requires Splittable(specs, letters) && NormalizeAfter(specs, TakesNext(specs, letters), tail) == tail
    ensures Normalize(specs, Split(specs, letters) + tail) == Split(specs, letters) + tail
    decreases |letters|
  {
    hide Normalize, NormalizeAfter, FindShort;
    if letters == "" {
      AfterByCases(specs, "", tail);
      assert [] + tail == tail;
    } else {
      var c := letters[0];
      var single: string := ['-', c];
      var i := FindShort(specs, c).value;
      if !specs[i].takesValue {
        var more := Split(specs, letters[1..]) + tail;
        SplitIsNormal(specs, letters[1..], tail);
        SingleIsNormal(specs, c, more);
        AfterByCases(specs, "", more);
        assert Split(specs, letters) + tail == [single] + more;
      } else if |letters| > 1 {
        SingleIsNormal(specs, c, [letters[1..]] + tail);
        AfterByCases(specs, letters[1..], tail);
        assert Split(specs, letters) + tail == [single] + ([letters[1..]] + tail);
      } else {
        SingleIsNormal(specs, c, tail);
      }
    }
  }

  lemma {:induction false} AfterIsNormal(specs: seq<OptionSpec>, takesNext: bool, rest: seq<string>)
    ensures var after := NormalizeAfter(specs, takesNext, rest);
            NormalizeAfter(specs, takesNext, after) == after
    decreases |rest|, 1
  {
    hide Normalize;
    if !takesNext {
      NormalizeIsIdempotent(specs, rest);
    } else if rest != [] {
      NormalizeIsIdempotent(specs, rest[1..]);
      assert ([rest[0]] + Normalize(specs, rest[1..]))[1..] == Normalize(specs, rest[1..]);
    }
  }

  /** The normal form is normal: nothing in it is left to split. */
  lemma {:induction false} NormalizeIsIdempotent(specs: seq<OptionSpec>, args: seq<string>)
    ensures Normalize(specs, Normalize(specs, args)) == Normalize(specs, args)
    decreases |args|, 0
  {
    hide NormalizeAfter, Split, TakesNext, Splittable;
    if args != [] && !IsHelpOrEnd(args[0]) {
      var arg, rest := args[0], args[1..];
      if IsLong(arg) {
        match FindLong(specs, arg[2..])
        case None =>
        case Some(i) =>
          AfterIsNormal(specs, specs[i].takesValue, rest);
          var rest' := NormalizeAfter(specs, specs[i].takesValue, rest);
          assert ([arg] + rest')[1..] == rest';
      } else if IsShort(arg) {
        var letters := arg[1..];
        var rest' := NormalizeAfter(specs, TakesNext(specs, letters), rest);
        AfterIsNormal(specs, TakesNext(specs, letters), rest);
        if Splittable(specs, letters) {
          SplitIsNormal(specs, letters, rest');
        } else {
          assert ([arg] + rest')[1..] == rest';
        }
      }
    }
  }

  lemma NormalizeKeepsSome(specs: seq<OptionSpec>, args: seq<string>)
    requires args != []
    ensures Normalize(specs, args) != []
  {
  }

  /** A known letter may be split off exactly when it can stand alone. */
  lemma LetterSplitsExactly<C>(p: Parser<C>, c: char, config: C)
    requires FindShort(p.specs, c).Some?
    ensures CanStandAlone(c) <==>
            forall rest :: ParseFrom(p, [['-', c]] + rest, config) == ParseBundle(p, [c], rest, config)
  {
    hide Use;
    if CanStandAlone(c) {
      forall rest
        ensures ParseFrom(p, [['-', c]] + rest, config) == ParseBundle(p, [c], rest, config)
      {
        SingleLetter(p, c, rest, config);
      }
    } else {
      var rest := ["x", "y"];
      ReservedLetter(p, c, rest, config);
      TwoPositionalsFail(p, c, config);
    }
  }

  lemma ReservedLetter<C>(p: Parser<C>, c: char, rest: seq<string>, config: C)
    requires !CanStandAlone(c)
    ensures ParseFrom(p, [['-', c]] + rest, config).status in {ShowHelp, ShowVersion, Done}
  {
    var arg: string := ['-', c];
    assert arg == "-h" || arg == "-V" || arg == "--";
  }

  lemma TwoPositionalsFail<C>(p: Parser<C>, c: char, config: C)
    requires FindShort(p.specs, c).Some?
    ensures ParseBundle(p, [c], ["x", "y"], config).status == Failed
  {
    hide Use;
    var i := FindShort(p.specs, c).value;
    assert ["x", "y"][1..] == ["y"];
    assert [c][1..] == "";
    PositionalFails(p, "x", ["y"]);
    PositionalFails(p, "y", []);
    assert ["x"] + ["y"] == ["x", "y"] && ["y"] + [] == ["y"];
  }

  lemma PositionalFails<C>(p: Parser<C>, arg: string, rest: seq<string>)
    requires arg == "x" || arg == "y"
    ensures forall config :: ParseFrom(p, [arg] + rest, config).status == Failed
  {
    assert !IsHelpOrEnd(arg);
    assert !IsLong(arg);
  }
}
