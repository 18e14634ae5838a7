/** What a command line means, apart from any configuration: which options it names with which values,
    and how it ends.  Parsing is applying those, left to right, until one fails. */
module CliReading {
  import opened Common
  import opened CliOptions

  datatype Named = Named(option: nat, value: string)

  datatype Ending = Finished | Shows(status: ParseStatus) | Refuses(message: string)

  datatype Reading = Reading(uses: seq<Named>, ending: Ending)

  function Then(option: nat, value: string, r: Reading): Reading {
    Reading([Named(option, value)] + r.uses, r.ending)
  }

  function ReadArgs(specs: seq<OptionSpec>, args: seq<string>): (r: Reading)
    ensures forall u :: u in r.uses ==> u.option < |specs|
    decreases |args|, 0
  {
    if args == [] then Reading([], Finished)
    else if args[0] == "--help" || args[0] == "-h" then Reading([], Shows(ShowHelp))
    else if args[0] == "--help-verbose" then Reading([], Shows(ShowHelpVerbose))
    else if args[0] == "--version" || args[0] == "-V" then Reading([], Shows(ShowVersion))
    else if args[0] == "--" then Reading([], Finished)
    else if |args[0]| >= 2 && args[0][..2] == "--" then ReadLong(specs, args[0][2..], args[1..])
    else if |args[0]| >= 2 && args[0][0] == '-' then ReadLetters(specs, args[0][1..], args[1..])
    else Reading([], Refuses("Unexpected positional argument '" + args[0] + "'"))
  }

  function ReadLong(specs: seq<OptionSpec>, name: string, rest: seq<string>): (r: Reading)
    ensures forall u :: u in r.uses ==> u.option < |specs|
    decreases |rest|, 1
  {
    match FindLong(specs, name)
    case None => Reading([], Refuses("Unknown option '--" + name + "'"))
    case Some(i) =>
      if !specs[i].takesValue then Then(i, "", ReadArgs(specs, rest))
      else if rest == [] then Reading([], Refuses("Option '--" + name + "' requires a value"))
      else Then(i, rest[0], ReadArgs(specs, rest[1..]))
  }

  function ReadLetters(specs: seq<OptionSpec>, letters: string, rest: seq<string>): (r: Reading)
    ensures forall u :: u in r.uses ==> u.option < |specs|
    decreases |rest|, 1 + |letters|
  {
    if letters == "" then ReadArgs(specs, rest)
    else
      match FindShort(specs, letters[0])
      case None => Reading([], Refuses("Unknown option '-" + [letters[0]] + "'"))
      case Some(i) =>
        if !specs[i].takesValue then Then(i, "", ReadLetters(specs, letters[1..], rest))
        else if letters[1..] != "" then Then(i, letters[1..], ReadArgs(specs, rest))
        else if rest == [] then Reading([], Refuses("Option '-" + [letters[0]] + "' requires a value"))
        else Then(i, rest[0], ReadArgs(specs, rest[1..]))
  }

  // ---- Applying ----

  predicate Accepts(spec: OptionSpec, value: string) {
    !spec.takesValue || spec.allowedValues == [] || value in spec.allowedValues
  }

  function Commas(values: seq<string>): string {
    if values == [] then "" else ", " + values[0] + Commas(values[1..])
  }

  /** The values with commas between them; empty ones at the front leave no trace. */
  function CommaList(values: seq<string>): string {
    if values == [] then "" else if values[0] == "" then CommaList(values[1..]) else values[0] + Commas(values[1..])
  }

  function Rejection(spec: OptionSpec, value: string): string {
    "Invalid value '" + value + "' for '--" + spec.longName + "'. Allowed: " + CommaList(spec.allowedValues)
  }

  /** The options applied left to right, or the message of the first failure. */
  function ApplyAll<C>(p: Parser<C>, config: C, uses: seq<Named>): Result<C>
    requires forall u :: u in uses ==> u.option < |p.specs|
  {
    if uses == [] then Ok(config)
    else
      var u := uses[0];
      if !Accepts(p.specs[u.option], u.value) then Err(Rejection(p.specs[u.option], u.value))
      else
        match p.apply(config, u.option, u.value)
        case Err(message) => Err(message)
        case Ok(config') => ApplyAll(p, config', uses[1..])
  }

  function Outcome<C>(p: Parser<C>, config: C, r: Reading): ParseResult<C>
    requires forall u :: u in r.uses ==> u.option < |p.specs|
  {
    match ApplyAll(p, config, r.uses)
    case Err(message) => ParseResult(None, Failed, message)
    case Ok(config') =>
      match r.ending
      case Finished => ParseResult(Some(config'), Done, "")
      case Shows(status) => ParseResult(None, status, "")
      case Refuses(message) => ParseResult(None, Failed, message)
  }

  // ---- Parsing is applying what was read ----

  lemma {:induction false} ListFrom(acc: string, values: seq<string>)
    requires acc != ""
    ensures ListAllowed(acc, values) == acc + Commas(values)
    decreases values
  {
    if values == [] {
      assert acc + "" == acc;
    } else {
      ListFrom(acc + ", " + values[0], values[1..]);
      assert acc + ", " + values[0] + Commas(values[1..]) == acc + (", " + values[0] + Commas(values[1..]));
    }
  }

  lemma {:induction false} ListIsCommaList(values: seq<string>)
    ensures ListAllowed("", values) == CommaList(values)
  {
    if values != [] {
      assert "" + values[0] == values[0];
      if values[0] == "" {
        ListIsCommaList(values[1..]);
      } else {
        ListFrom(values[0], values[1..]);
      }
    }
  }

  lemma UseIsOne<C>(p: Parser<C>, config: C, i: nat, value: string)
    requires i < |p.specs|
    ensures Use(p, config, i, value) ==
            if !Accepts(p.specs[i], value) then Err(Rejection(p.specs[i], value)) else p.apply(config, i, value)
  {
    ListIsCommaList(p.specs[i].allowedValues);
    hide ListAllowed, CommaList;
  }

  lemma OutcomeThen<C>(p: Parser<C>, config: C, i: nat, value: string, r: Reading)
    requires i < |p.specs| && forall u :: u in r.uses ==> u.option < |p.specs|
    ensures forall u :: u in Then(i, value, r).uses ==> u.option < |p.specs|
    ensures Outcome(p, config, Then(i, value, r)) ==
            match Use(p, config, i, value)
            case Err(message) => Fail(message)
            case Ok(config') => Outcome(p, config', r)
  {
    UseIsOne(p, config, i, value);
    hide Use, Accepts, Rejection;
    assert Then(i, value, r).uses[1..] == r.uses;
  }

  lemma {:induction false} ParsesAsRead<C>(p: Parser<C>, args: seq<string>, config: C)
    ensures ParseFrom(p, args, config) == Outcome(p, config, ReadArgs(p.specs, args))
    decreases |args|, 0
  {
    if args != [] {
      var arg := args[0];
      DashesRead(arg);
      hide IsLong, IsShort, ParseLong, ParseBundle, ReadLong, ReadLetters, Use;
      if IsLong(arg) {
        LongAsRead(p, arg[2..], args[1..], config);
      } else if IsShort(arg) {
        LettersAsRead(p, arg[1..], args[1..], config);
      }
    }
  }

  lemma DashesRead(arg: string)
    ensures IsLong(arg) <==> |arg| >= 2 && arg[..2] == "--"
    ensures IsShort(arg) <==> |arg| >= 2 && arg[0] == '-' && arg[..2] != "--"
  {
  }

  lemma {:induction false} LongAsRead<C>(p: Parser<C>, name: string, rest: seq<string>, config: C)
    ensures ParseLong(p, name, rest, config) == Outcome(p, config, ReadLong(p.specs, name, rest))
    decreases |rest|, 1
  {
    hide Use, ParseFrom, ReadArgs, Outcome;
    match FindLong(p.specs, name)
    case None => OutcomeOfRefusal(p, config, "Unknown option '--" + name + "'");
    case Some(i) =>
      if !p.specs[i].takesValue {
        OutcomeThen(p, config, i, "", ReadArgs(p.specs, rest));
        match Use(p, config, i, "")
        case Err(_) =>
        case Ok(config') => ParsesAsRead(p, rest, config');
      } else if rest == [] {
        OutcomeOfRefusal(p, config, "Option '--" + name + "' requires a value");
      } else {
        OutcomeThen(p, config, i, rest[0], ReadArgs(p.specs, rest[1..]));
        match Use(p, config, i, rest[0])
        case Err(_) =>
        case Ok(config') => ParsesAsRead(p, rest[1..], config');
      }
  }

  lemma OutcomeOfRefusal<C>(p: Parser<C>, config: C, message: string)
    ensures Outcome(p, config, Reading([], Refuses(message))) == Fail(message)
  {
  }

  lemma {:induction false} LettersAsRead<C>(p: Parser<C>, letters: string, rest: seq<string>, config: C)
    ensures ParseBundle(p, letters, rest, config) == Outcome(p, config, ReadLetters(p.specs, letters, rest))
    decreases |rest|, 1 + |letters|
  {
    hide Use, ParseFrom, ReadArgs, Outcome;
    if letters == "" {
      ParsesAsRead(p, rest, config);
    } else {
      match FindShort(p.specs, letters[0])
      case None => OutcomeOfRefusal(p, config, "Unknown option '-" + [letters[0]] + "'");
      case Some(i) =>
        if !p.specs[i].takesValue {
          OutcomeThen(p, config, i, "", ReadLetters(p.specs, letters[1..], rest));
          match Use(p, config, i, "")
          case Err(_) =>
          case Ok(config') => LettersAsRead(p, letters[1..], rest, config');
        } else if |letters| > 1 {
          OutcomeThen(p, config, i, letters[1..], ReadArgs(p.specs, rest));
          match Use(p, config, i, letters[1..])
          case Err(_) =>
          case Ok(config') => ParsesAsRead(p, rest, config');
        } else if rest == [] {
          OutcomeOfRefusal(p, config, "Option '-" + [letters[0]] + "' requires a value");
        } else {
          OutcomeThen(p, config, i, rest[0], ReadArgs(p.specs, rest[1..]));
          match Use(p, config, i, rest[0])
          case Err(_) =>
          case Ok(config') => ParsesAsRead(p, rest[1..], config');
        }
    }
  }

  /** The whole command line, the program's name first. */
  lemma ParseIsOutcome<C>(p: Parser<C>, completing: bool, args: seq<string>)
    ensures Parse(p, completing, args) ==
            if completing then ParseResult(None, ShowCompletion, "")
            else if |args| <= 1 then ParseResult(Some(p.initial), Done, "")
            else Outcome(p, p.initial, ReadArgs(p.specs, args[1..]))
  {
    hide ParseFrom, Outcome, ReadArgs;
    if !completing && |args| > 1 {
      ParsesAsRead(p, args[1..], p.initial);
    }
  }

  /** The configurations along the way: each named option accepted its value and was applied. */
  ghost predicate IsTrace<C>(p: Parser<C>, uses: seq<Named>, configs: seq<C>)
    requires forall u :: u in uses ==> u.option < |p.specs|
  {
    && 1 <= |configs| <= |uses| + 1
    && forall k :: 0 <= k < |configs| - 1 ==>
         && Accepts(p.specs[uses[k].option], uses[k].value)
         && p.apply(configs[k], uses[k].option, uses[k].value) == Ok(configs[k + 1])
  }

  /** All options are applied exactly when every value is accepted and every application succeeds;
      otherwise the message is that of the first that fails. */
  lemma {:induction false} ApplyAllTrace<C>(p: Parser<C>, config: C, uses: seq<Named>) returns (configs: seq<C>)
    requires forall u :: u in uses ==> u.option < |p.specs|
    ensures IsTrace(p, uses, configs) && configs[0] == config
    ensures ApplyAll(p, config, uses).Ok? <==> |configs| == |uses| + 1
    ensures ApplyAll(p, config, uses).Ok? ==> ApplyAll(p, config, uses).value == configs[|uses|]
    ensures ApplyAll(p, config, uses).Err? ==>
              var u, before := uses[|configs| - 1], configs[|configs| - 1];
              var message := ApplyAll(p, config, uses).message;
              if Accepts(p.specs[u.option], u.value) then p.apply(before, u.option, u.value) == Err(message)
              else message == Rejection(p.specs[u.option], u.value)
  {
    configs := [config];
    if uses != [] && Accepts(p.specs[uses[0].option], uses[0].value) {
      var applied := p.apply(config, uses[0].option, uses[0].value);
      if applied.Ok? {
        var rest := ApplyAllTrace(p, applied.value, uses[1..]);
        hide Accepts, Rejection;
        configs := [config] + rest;
        forall k | 0 <= k < |configs| - 1
          ensures Accepts(p.specs[uses[k].option], uses[k].value)
          ensures p.apply(configs[k], uses[k].option, uses[k].value) == Ok(configs[k + 1])
        {
          if k > 0 {
            assert uses[k] == uses[1..][k - 1] && configs[k] == rest[k - 1];
          }
        }
      }
    }
  }

  // ---- The four ways to name an option ----

  const TABLE := [OptionSpec("model", 'm', true, []), OptionSpec("verbose", 'v', false, [])]

  lemma TableLookup()
    ensures FindLong(TABLE, "model") == Some(0) && FindShort(TABLE, 'm') == Some(0) && FindShort(TABLE, 'v') == Some(1)
  {
    assert TABLE[1..] == [OptionSpec("verbose", 'v', false, [])];
    assert FirstShort(TABLE[1..], 'v') == Some(0);
  }

  lemma LongForm()
    ensures ReadArgs(TABLE, ["--model", "gpt"]) == Reading([Named(0, "gpt")], Finished)
  {
    TableLookup();
    hide FindLong, FindShort;
    assert "--model"[..2] == "--" && "--model"[2..] == "model";
    assert ["--model", "gpt"][1..] == ["gpt"] && ["gpt"][1..] == [];
  }

  lemma AttachedForm()
    ensures ReadArgs(TABLE, ["-mgpt"]) == Reading([Named(0, "gpt")], Finished)
  {
    TableLookup();
    hide FindLong, FindShort;
    assert "-mgpt"[..2][1] == 'm' && "-mgpt"[1..] == "mgpt" && "mgpt"[1..] == "gpt";
  }

  lemma DetachedForm()
    ensures ReadArgs(TABLE, ["-m", "gpt"]) == Reading([Named(0, "gpt")], Finished)
  {
    TableLookup();
    hide FindLong, FindShort;
    assert "-m"[..2][1] == 'm' && "-m"[1..] == "m" && "m"[1..] == "";
    assert ["-m", "gpt"][1..] == ["gpt"] && ["gpt"][1..] == [];
  }

  lemma FlagForm()
    ensures ReadArgs(TABLE, ["-v"]) == Reading([Named(1, "")], Finished)
  {
    TableLookup();
    hide FindLong, FindShort;
    assert "-v"[..2][1] == 'v' && "-v"[1..] == "v" && "v"[1..] == "";
  }

  // ---- What the normal form is ----

  /** A bundle can be split when every letter up to the first that takes a value is known and is none
      of h, V and "-". */
  lemma {:induction false} SplittableExactly(specs: seq<OptionSpec>, letters: string)
    ensures Splittable(specs, letters) <==>
            forall i :: 0 <= i < |letters| && (forall j :: 0 <= j < i ==> IsFlag(specs, letters[j])) ==>
              FindShort(specs, letters[i]).Some? && letters[i] != 'h' && letters[i] != 'V' && letters[i] != '-'
  {
    if letters != "" {
      var rest := letters[1..];
      assert forall i :: 0 <= i < |rest| ==> rest[i] == letters[i + 1];
      SplittableExactly(specs, rest);
      hide FindShort;
      if IsFlag(specs, letters[0]) && CanStandAlone(letters[0]) {
        if Splittable(specs, rest) {
          forall i | 0 <= i < |letters| && (forall j :: 0 <= j < i ==> IsFlag(specs, letters[j]))
            ensures FindShort(specs, letters[i]).Some? && letters[i] != 'h' && letters[i] != 'V' && letters[i] != '-'
          {
            if i > 0 {
              forall j | 0 <= j < i - 1
                ensures IsFlag(specs, rest[j])
              {
                assert IsFlag(specs, letters[j + 1]);
              }
              assert rest[i - 1] == letters[i];
            }
          }
        } else {
          var i :| 0 <= i < |rest| && (forall j :: 0 <= j < i ==> IsFlag(specs, rest[j]))
                   && !(FindShort(specs, rest[i]).Some? && rest[i] != 'h' && rest[i] != 'V' && rest[i] != '-');
          forall j | 0 <= j < i + 1
            ensures IsFlag(specs, letters[j])
          {
            if j > 0 {
              assert IsFlag(specs, rest[j - 1]);
            }
          }
          assert letters[i + 1] == rest[i];
        }
      }
    }
  }

  predicate IsFlag(specs: seq<OptionSpec>, c: char) {
    FindShort(specs, c).Some? && !specs[FindShort(specs, c).value].takesValue
  }

  /** No bundle that can be split is left where the parser reads options. */
  predicate IsNormal(specs: seq<OptionSpec>, args: seq<string>)
    decreases |args|, 0
  {
    if args == [] || IsHelpOrEnd(args[0]) then true
    else if IsLong(args[0]) then
      match FindLong(specs, args[0][2..])
      case None => true
      case Some(i) => IsNormalAfter(specs, specs[i].takesValue, args[1..])
    else if IsShort(args[0]) then
      && (Splittable(specs, args[0][1..]) ==> |args[0]| == 2)
      && IsNormalAfter(specs, TakesNext(specs, args[0][1..]), args[1..])
    else true
  }

  predicate IsNormalAfter(specs: seq<OptionSpec>, takesNext: bool, rest: seq<string>)
    decreases |rest|, 1
  {
    if !takesNext then IsNormal(specs, rest) else rest == [] || IsNormal(specs, rest[1..])
  }

  lemma {:induction false} NormalizeIsNormal(specs: seq<OptionSpec>, args: seq<string>)
    ensures IsNormal(specs, Normalize(specs, args))
    decreases |args|, 0
  {
    if args != [] && !IsHelpOrEnd(args[0]) {
      if IsLong(args[0]) {
        match FindLong(specs, args[0][2..])
        case None =>
        case Some(i) =>
          AfterNormal(specs, specs[i].takesValue, args[1..]);
          var after := NormalizeAfter(specs, specs[i].takesValue, args[1..]);
          assert ([args[0]] + after)[1..] == after;
      } else if IsShort(args[0]) {
        var letters := args[0][1..];
        var after := NormalizeAfter(specs, TakesNext(specs, letters), args[1..]);
        AfterNormal(specs, TakesNext(specs, letters), args[1..]);
        if Splittable(specs, letters) {
          SplitNormal(specs, letters, after);
        } else {
          assert ([args[0]] + after)[1..] == after;
        }
      }
    }
  }

  lemma {:induction false} AfterNormal(specs: seq<OptionSpec>, takesNext: bool, rest: seq<string>)
    ensures IsNormalAfter(specs, takesNext, NormalizeAfter(specs, takesNext, rest))
    decreases |rest|, 1
  {
    if !takesNext {
      NormalizeIsNormal(specs, rest);
    } else if rest != [] {
      NormalizeIsNormal(specs, rest[1..]);
      assert ([rest[0]] + Normalize(specs, rest[1..]))[1..] == Normalize(specs, rest[1..]);
    }
  }

  lemma SingleNormal(specs: seq<OptionSpec>, c: char, tail: seq<string>)
    requires FindShort(specs, c).Some? && CanStandAlone(c)
    requires IsNormalAfter(specs, specs[FindShort(specs, c).value].takesValue, tail)
    ensures IsNormal(specs, [['-', c]] + tail)
  {
    var arg := ['-', c];
    assert arg[1] == c && arg[1..] == [c];
    assert !IsHelpOrEnd(arg) by {
      assert "-h"[1] == 'h' && "-V"[1] == 'V' && "--"[1] == '-';
    }
    assert !IsLong(arg) by {
      assert "--"[1] == '-';
    }
    assert ([arg] + tail)[1..] == tail && [c][1..] == "";
    hide FindShort;
    assert !TakesNext(specs, "");
    assert TakesNext(specs, [c]) == specs[FindShort(specs, c).value].takesValue;
    assert IsShort(arg) && ([arg] + tail)[0] == arg;
  }

  lemma {:induction false} SplitNormal(specs: seq<OptionSpec>, letters: string, tail: seq<string>)
    requires Splittable(specs, letters) && IsNormalAfter(specs, TakesNext(specs, letters), tail)
    ensures IsNormal(specs, Split(specs, letters) + tail)
    decreases |letters|
  {
    if letters == "" {
      assert [] + tail == tail;
    } else {
      hide IsNormal;
      var c := letters[0];
      var i := FindShort(specs, c).value;
      if !specs[i].takesValue {
        SplitNormal(specs, letters[1..], tail);
        SingleNormal(specs, c, Split(specs, letters[1..]) + tail);
        assert Split(specs, letters) + tail == [['-', c]] + (Split(specs, letters[1..]) + tail);
      } else if |letters| > 1 {
        assert ([letters[1..]] + tail)[1..] == tail;
        SingleNormal(specs, c, [letters[1..]] + tail);
        assert Split(specs, letters) + tail == [['-', c]] + ([letters[1..]] + tail);
      } else {
        SingleNormal(specs, c, tail);
        assert Split(specs, letters) + tail == [['-', c]] + tail;
      }
    }
  }
}
