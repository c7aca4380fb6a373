/**
  The command line of cli.rs. Words are strings; words that are not UTF-8 are not modelled.
 */
module Cli {
  import opened Wrappers

  datatype BindArg = BindArg(source: string, destination: string)

  datatype RunArgs = RunArgs(binds: seq<BindArg>, cwd: string, quiet: bool, command: string, args: seq<string>)

  datatype Parsed = Run(run: RunArgs) | Probe(binds: seq<BindArg>) | Help | Version

  datatype ParseError =
    | BindNeedsValue | CwdNeedsPath
    | BindWithoutColon | BindWithEmptyPart | BindNotAbsolute
    | UnknownOption(word: string)
    | MissingView | MissingCommand
    | UnexpectedProbeArgument(word: string) | ProbeNeedsBind

  // ----- Words -----

  function StripPrefix(word: string, prefix: string): Option<string> {
    if prefix <= word then Some(word[|prefix|..]) else None
  }

  /** `split_once(':')`. */
  function SplitOnce(s: string): Option<(string, string)> {
    if s == "" then None
    else if s[0] == ':' then Some(("", s[1..]))
    else match SplitOnce(s[1..])
      case None => None
      case Some((a, b)) => Some(([s[0]] + a, b))
  }

  function ParseBind(value: string): Result<BindArg, ParseError> {
    match SplitOnce(value)
    case None => Err(BindWithoutColon)
    case Some((source, destination)) =>
      if source == "" || destination == "" then Err(BindWithEmptyPart)
      else if destination[0] != '/' then Err(BindNotAbsolute)
      else Ok(BindArg(source, destination))
  }

  function StripCwd(word: string): Option<string> {
    if StripPrefix(word, "--cwd=").Some? then StripPrefix(word, "--cwd=") else StripPrefix(word, "--pwd=")
  }

  // ----- Parsing -----

  function Finish(binds: seq<BindArg>, cwd: Option<string>, quiet: bool, command: seq<string>)
    : Result<Parsed, ParseError>
  {
    if binds == [] then Err(MissingView)
    else if command == [] then Err(MissingCommand)
    else Ok(Run(RunArgs(binds, if cwd.Some? then cwd.value else "/", quiet, command[0], command[1..])))
  }

  function AddBind(words: seq<string>, value: string, binds: seq<BindArg>, cwd: Option<string>,
                   quiet: bool): Result<Parsed, ParseError>
    decreases |words|, 2
  {
    match ParseBind(value)
    case Err(e) => Err(e)
    case Ok(b) => Scan(words, binds + [b], cwd, quiet, true)
  }

  /** What the remaining words mean after `binds`, `cwd` and `quiet`. */
  function Scan(words: seq<string>, binds: seq<BindArg>, cwd: Option<string>, quiet: bool,
                options: bool): Result<Parsed, ParseError>
    decreases |words|, 1
  {
    if words == [] then Finish(binds, cwd, quiet, [])
    else
      var arg, rest := words[0], words[1..];
      if !options then Finish(binds, cwd, quiet, words)
      else if arg == "--" then Scan(rest, binds, cwd, quiet, false)
      else if arg == "-h" || arg == "--help" then Ok(Help)
      else if arg == "-V" || arg == "--version" then Ok(Version)
      else if arg == "--quiet" then Scan(rest, binds, cwd, true, true)
      else if arg == "-b" || arg == "--bind" then
        if rest == [] then Err(BindNeedsValue) else AddBind(rest[1..], rest[0], binds, cwd, quiet)
      else if arg == "-w" || arg == "--cwd" || arg == "--pwd" then
        if rest == [] then Err(CwdNeedsPath) else Scan(rest[1..], binds, Some(rest[0]), quiet, true)
      else match (StripPrefix(arg, "--bind="), StripCwd(arg))
        case (Some(value), _) => AddBind(rest, value, binds, cwd, quiet)
        case (None, Some(value)) =>
          if value == "" then Err(CwdNeedsPath) else Scan(rest, binds, Some(value), quiet, true)
        case (None, None) => if "-" <= arg then Err(UnknownOption(arg)) else Finish(binds, cwd, quiet, words)
  }

  function ScanProbe(words: seq<string>, binds: seq<BindArg>): Result<Parsed, ParseError>
    decreases |words|
  {
    if words == [] then if binds == [] then Err(ProbeNeedsBind) else Ok(Probe(binds))
    else
      var arg, rest := words[0], words[1..];
      if arg == "-h" || arg == "--help" then Ok(Help)
      else if arg == "-b" || arg == "--bind" then
        if rest == [] then Err(BindNeedsValue)
        else match ParseBind(rest[0])
          case Err(e) => Err(e)
          case Ok(b) => ScanProbe(rest[1..], binds + [b])
      else match StripPrefix(arg, "--bind=")
        case None => Err(UnexpectedProbeArgument(arg))
        case Some(value) =>
          match ParseBind(value)
          case Err(e) => Err(e)
          case Ok(b) => ScanProbe(rest, binds + [b])
  }

  function Parse(words: seq<string>): Result<Parsed, ParseError> {
    if words != [] && words[0] == "probe" then ScanProbe(words[1..], []) else Scan(words, [], None, false, true)
  }

  method ParseRun(words: seq<string>) returns (r: Result<Parsed, ParseError>)
    ensures r == Scan(words, [], None, false, true)
  {
    var binds: seq<BindArg>, cwd: Option<string>, quiet, command: seq<string>, options := [], None, false, [], true;
    var i := 0;
    while i < |words|
      invariant 0 <= i <= |words| && command == []
      invariant Scan(words, [], None, false, true) == Scan(words[i..], binds, cwd, quiet, options)
      decreases |words| - i
    {
      var arg := words[i];
      assert words[i..][1..] == words[i + 1..];
      i := i + 1;
      if options && arg == "--" {
        options := false;
        continue;
      }
      if options && (arg == "-h" || arg == "--help") {
        return Ok(Help);
      }
      if options && (arg == "-V" || arg == "--version") {
        return Ok(Version);
      }
      if options && arg == "--quiet" {
        quiet := true;
        continue;
      }
      if options && (arg == "-b" || arg == "--bind") {
        if i == |words| {
          return Err(BindNeedsValue);
        }
        assert words[i..][1..] == words[i + 1..];
        var bind := ParseBind(words[i]);
        i := i + 1;
        match bind {
          case Err(e) => return Err(e);
          case Ok(b) => binds := binds + [b];
        }
        continue;
      }
      if options && (arg == "-w" || arg == "--cwd" || arg == "--pwd") {
        if i == |words| {
          return Err(CwdNeedsPath);
        }
        assert words[i..][1..] == words[i + 1..];
        cwd := Some(words[i]);
        i := i + 1;
        continue;
      }
      if options {
        var value := StripPrefix(arg, "--bind=");
        if value.Some? {
          var bind := ParseBind(value.value);
          match bind {
            case Err(e) => return Err(e);
            case Ok(b) => binds := binds + [b];
          }
          continue;
        }
        var path := StripCwd(arg);
        if path.Some? {
          if path.value == "" {
            return Err(CwdNeedsPath);
          }
          cwd := path;
          continue;
        }
        if "-" <= arg {
          return Err(UnknownOption(arg));
        }
      }
      command := [arg] + words[i..];
      assert command == words[i - 1..];
      break;
    }
    return Finish(binds, cwd, quiet, command);
  }

  method ParseProbe(words: seq<string>) returns (r: Result<Parsed, ParseError>)
    ensures r == ScanProbe(words, [])
  {
    var binds: seq<BindArg> := [];
    var i := 0;
    while i < |words|
      invariant 0 <= i <= |words|
      invariant ScanProbe(words, []) == ScanProbe(words[i..], binds)
    {
      var arg := words[i];
      assert words[i..][1..] == words[i + 1..];
      i := i + 1;
      if arg == "-h" || arg == "--help" {
        return Ok(Help);
      }
      var value := StripPrefix(arg, "--bind=");
      if arg == "-b" || arg == "--bind" {
        if i == |words| {
          return Err(BindNeedsValue);
        }
        assert words[i..][1..] == words[i + 1..];
        value := Some(words[i]);
        i := i + 1;
      }
      if value.None? {
        return Err(UnexpectedProbeArgument(arg));
      }
      var bind := ParseBind(value.value);
      match bind {
        case Err(e) => return Err(e);
        case Ok(b) => binds := binds + [b];
      }
    }
    return if binds == [] then Err(ProbeNeedsBind) else Ok(Probe(binds));
  }

  // ----- Rendering -----

  datatype BindSpelling = ShortBind | LongBind | EqualsBind
  datatype CwdSpelling = ShortCwd | LongCwd | LongPwd | EqualsCwd | EqualsPwd

  /** One option as a caller may write it. */
  datatype Item = BindItem(bind: BindArg, how: BindSpelling) | CwdItem(path: string, spelled: CwdSpelling) | QuietItem

  predicate Expressible(b: BindArg) {
    b.source != "" && ':' !in b.source && "/" <= b.destination
  }

  predicate Writable(item: Item) {
    match item
    case BindItem(b, _) => Expressible(b)
    case CwdItem(path, spelled) => path != "" || (!spelled.EqualsCwd? && !spelled.EqualsPwd?)
    case QuietItem => true
  }

  function Words(item: Item): (r: seq<string>)
    ensures r != []
  {
    match item
    case BindItem(b, ShortBind) => ["-b", b.source + ":" + b.destination]
    case BindItem(b, LongBind) => ["--bind", b.source + ":" + b.destination]
    case BindItem(b, EqualsBind) => ["--bind=" + (b.source + ":" + b.destination)]
    case CwdItem(path, ShortCwd) => ["-w", path]
    case CwdItem(path, LongCwd) => ["--cwd", path]
    case CwdItem(path, LongPwd) => ["--pwd", path]
    case CwdItem(path, EqualsCwd) => ["--cwd=" + path]
    case CwdItem(path, EqualsPwd) => ["--pwd=" + path]
    case QuietItem => ["--quiet"]
  }

  function Render(items: seq<Item>): seq<string> {
    if items == [] then [] else Words(items[0]) + Render(items[1..])
  }

  function BindsOf(items: seq<Item>): seq<BindArg> {
    if items == [] then [] else (if items[0].BindItem? then [items[0].bind] else []) + BindsOf(items[1..])
  }

  /** The last directory wins. */
  function CwdOf(items: seq<Item>, before: Option<string>): Option<string> {
    if items == [] then before else CwdOf(items[1..], if items[0].CwdItem? then Some(items[0].path) else before)
  }

  function QuietOf(items: seq<Item>): bool {
    items != [] && (items[0].QuietItem? || QuietOf(items[1..]))
  }

  lemma {:induction false} SplitAtFirstColon(source: string, destination: string)
    requires ':' !in source
    ensures SplitOnce(source + ":" + destination) == Some((source, destination))
  {
    var s := source + ":" + destination;
    if source == "" {
      assert s[1..] == destination;
    } else {
      assert s[1..] == source[1..] + ":" + destination;
      SplitAtFirstColon(source[1..], destination);
      assert s[0] == source[0] && [s[0]] + source[1..] == source;
    }
  }

  lemma BindParses(b: BindArg)
    requires Expressible(b)
    ensures ParseBind(b.source + ":" + b.destination) == Ok(b)
  {
    SplitAtFirstColon(b.source, b.destination);
  }

  /** No word with an attached value is one of the bare options. */
  lemma EqualsForm(prefix: string, value: string)
    requires prefix == "--bind=" || prefix == "--cwd=" || prefix == "--pwd="
    requires value != ""
    ensures StripPrefix(prefix + value, prefix) == Some(value)
    ensures prefix + value !in ["--", "-h", "--help", "-V", "--version", "--quiet", "-b", "--bind", "-w", "--cwd",
                                "--pwd"]
    ensures prefix == "--cwd=" ==> StripPrefix(prefix + value, "--bind=") == None
    ensures prefix == "--pwd=" ==>
              StripPrefix(prefix + value, "--bind=") == None && StripPrefix(prefix + value, "--cwd=") == None
  {
    var w := prefix + value;
    assert |w| > 6 && w[1] == '-' && w[2] == prefix[2];
    assert w[..|prefix|] == prefix && w[|prefix|..] == value;
  }

  lemma {:induction false} ScanBind(b: BindArg, how: BindSpelling, tail: seq<string>,
                                    binds: seq<BindArg>, cwd: Option<string>, quiet: bool)
    requires Expressible(b)
    ensures Scan(Words(BindItem(b, how)) + tail, binds, cwd, quiet, true) == Scan(tail, binds + [b], cwd, quiet, true)
  {
    var words := Words(BindItem(b, how)) + tail;
    BindParses(b);
    if how == EqualsBind {
      EqualsForm("--bind=", b.source + ":" + b.destination);
      assert words[1..] == tail;
    } else {
      assert words[1..][1..] == tail && words[1] == b.source + ":" + b.destination;
    }
  }

  lemma {:induction false} ScanCwd(path: string, spelled: CwdSpelling, tail: seq<string>,
                                   binds: seq<BindArg>, cwd: Option<string>, quiet: bool)
    requires Writable(CwdItem(path, spelled))
    ensures Scan(Words(CwdItem(path, spelled)) + tail, binds, cwd, quiet, true) ==
            Scan(tail, binds, Some(path), quiet, true)
  {
    var words := Words(CwdItem(path, spelled)) + tail;
    if spelled == EqualsCwd {
      EqualsForm("--cwd=", path);
      assert words[1..] == tail;
    } else if spelled == EqualsPwd {
      EqualsForm("--pwd=", path);
      assert words[1..] == tail;
    } else {
      assert words[1..][1..] == tail && words[1] == path;
    }
  }

  lemma {:induction false} ScanItem(item: Item, tail: seq<string>,
                                    binds: seq<BindArg>, cwd: Option<string>, quiet: bool)
    requires Writable(item)
    ensures Scan(Words(item) + tail, binds, cwd, quiet, true) ==
            Scan(tail, if item.BindItem? then binds + [item.bind] else binds,
                 if item.CwdItem? then Some(item.path) else cwd, quiet || item.QuietItem?, true)
  {
    match item {
      case BindItem(b, how) => ScanBind(b, how, tail, binds, cwd, quiet);
      case CwdItem(path, spelled) => ScanCwd(path, spelled, tail, binds, cwd, quiet);
      case QuietItem => assert (Words(item) + tail)[1..] == tail;
    }
  }

  lemma {:induction false} RenderHead(items: seq<Item>, tail: seq<string>)
    requires items != []
    ensures Render(items) + tail == Words(items[0]) + (Render(items[1..]) + tail)
  {
  }

  lemma {:induction false} BindsHead(items: seq<Item>, binds: seq<BindArg>)
    requires items != []
    ensures binds + BindsOf(items) ==
            (if items[0].BindItem? then binds + [items[0].bind] else binds) + BindsOf(items[1..])
  {
  }

  lemma {:induction false} ScanItems(items: seq<Item>, tail: seq<string>, binds: seq<BindArg>, cwd: Option<string>,
                                     quiet: bool)
    requires forall i :: 0 <= i < |items| ==> Writable(items[i])
    ensures Scan(Render(items) + tail, binds, cwd, quiet, true) ==
            Scan(tail, binds + BindsOf(items), CwdOf(items, cwd), quiet || QuietOf(items), true)
    decreases |items|
  {
    if items == [] {
      assert Render(items) + tail == tail && binds + BindsOf(items) == binds;
    } else {
      var item, rest := items[0], items[1..];
      RenderHead(items, tail);
      ScanItem(item, Render(rest) + tail, binds, cwd, quiet);
      var binds' := if item.BindItem? then binds + [item.bind] else binds;
      var cwd' := if item.CwdItem? then Some(item.path) else cwd;
      ScanItems(rest, tail, binds', cwd', quiet || item.QuietItem?);
      BindsHead(items, binds);
      assert CwdOf(items, cwd) == CwdOf(rest, cwd');
    }
  }

  lemma {:induction false} OptionsAreNotProbe(items: seq<Item>, tail: seq<string>)
    requires items != []
    ensures Render(items) + tail != [] && (Render(items) + tail)[0] != "probe"
  {
    var w := Words(items[0])[0];
    assert (Render(items) + tail)[0] == w;
    assert w[0] == '-';
  }

  /**
    Any options in any spelling, then `--`, then any words: the parse is exactly the options'
    meaning, and the command words are verbatim even where they look like options.
   */
  lemma {:induction false} RunRoundTrip(items: seq<Item>, command: seq<string>)
    requires forall i :: 0 <= i < |items| ==> Writable(items[i])
    requires BindsOf(items) != [] && command != []
    ensures Parse(Render(items) + (["--"] + command)) ==
            Ok(Run(RunArgs(BindsOf(items), if CwdOf(items, None).Some? then CwdOf(items, None).value else "/",
                           QuietOf(items), command[0], command[1..])))
  {
    var tail := ["--"] + command;
    OptionsAreNotProbe(items, tail);
    ScanItems(items, tail, [], None, false);
    assert [] + BindsOf(items) == BindsOf(items);
    assert tail[1..] == command;
  }

  function BindItems(binds: seq<BindArg>): seq<Item> {
    if binds == [] then [] else [BindItem(binds[0], LongBind)] + BindItems(binds[1..])
  }

  /** The same holds for `probe`, which takes binds only. */
  lemma {:induction false} ProbeRoundTrip(items: seq<Item>)
    requires forall i :: 0 <= i < |items| ==> Writable(items[i]) && items[i].BindItem?
    requires items != []
    ensures Parse(["probe"] + Render(items)) == Ok(Probe(BindsOf(items)))
  {
    assert (["probe"] + Render(items))[1..] == Render(items) == Render(items) + [];
    BindsThenStop(items, [], Ok(Probe(BindsOf(items))));
  }

  /** The options that spell a configuration out. */
  function Canonical(r: RunArgs): seq<Item> {
    (if r.quiet then [QuietItem] else []) + ([CwdItem(r.cwd, ShortCwd)] + BindItems(r.binds))
  }

  lemma {:induction false} SplitParts(s: string)
    ensures SplitOnce(s).Some? ==> ':' !in SplitOnce(s).value.0
  {
    if s != "" && s[0] != ':' {
      SplitParts(s[1..]);
    }
  }

  lemma ParsedBindIsExpressible(value: string)
    ensures ParseBind(value).Ok? ==> Expressible(ParseBind(value).value)
  {
    SplitParts(value);
  }

  ghost predicate AllExpressible(binds: seq<BindArg>) {
    forall i :: 0 <= i < |binds| ==> Expressible(binds[i])
  }

  lemma {:induction false} ScanResult(words: seq<string>, binds: seq<BindArg>, cwd: Option<string>, quiet: bool,
                                      options: bool)
    requires AllExpressible(binds)
    ensures var r := Scan(words, binds, cwd, quiet, options);
            r.Ok? && r.value.Run? ==> r.value.run.binds != [] && AllExpressible(r.value.run.binds)
    ensures var r := Scan(words, binds, cwd, quiet, options);
            r.Ok? ==> !r.value.Probe?
    decreases |words|, 1
  {
    if words != [] && options {
      var arg, rest := words[0], words[1..];
      if arg == "--" {
        ScanResult(rest, binds, cwd, quiet, false);
      } else if arg == "--quiet" {
        ScanResult(rest, binds, cwd, true, true);
      } else if arg == "-b" || arg == "--bind" {
        if rest != [] {
          AddBindResult(rest[1..], rest[0], binds, cwd, quiet);
        }
      } else if arg == "-w" || arg == "--cwd" || arg == "--pwd" {
        if rest != [] {
          ScanResult(rest[1..], binds, Some(rest[0]), quiet, true);
        }
      } else if StripPrefix(arg, "--bind=").Some? {
        AddBindResult(rest, StripPrefix(arg, "--bind=").value, binds, cwd, quiet);
      } else if StripCwd(arg).Some? {
        ScanResult(rest, binds, Some(StripCwd(arg).value), quiet, true);
      }
    }
  }

  lemma {:induction false} AddBindResult(words: seq<string>, value: string, binds: seq<BindArg>, cwd: Option<string>,
                                         quiet: bool)
    requires AllExpressible(binds)
    ensures var r := AddBind(words, value, binds, cwd, quiet);
            r.Ok? && r.value.Run? ==> r.value.run.binds != [] && AllExpressible(r.value.run.binds)
    ensures var r := AddBind(words, value, binds, cwd, quiet);
            r.Ok? ==> !r.value.Probe?
    decreases |words|, 2
  {
    ParsedBindIsExpressible(value);
    if ParseBind(value).Ok? {
      ScanResult(words, binds + [ParseBind(value).value], cwd, quiet, true);
    }
  }

  lemma {:induction false} CanonicalBinds(binds: seq<BindArg>)
    requires AllExpressible(binds)
    ensures BindsOf(BindItems(binds)) == binds && !QuietOf(BindItems(binds))
    ensures forall c :: CwdOf(BindItems(binds), c) == c
    ensures forall i :: 0 <= i < |BindItems(binds)| ==> Writable(BindItems(binds)[i])
  {
    if binds != [] {
      CanonicalBinds(binds[1..]);
      assert BindItems(binds)[1..] == BindItems(binds[1..]);
    }
  }

  lemma {:induction false} HeadMeaning(items: seq<Item>, rest: seq<Item>)
    requires items != [] && items[1..] == rest && !items[0].BindItem?
    ensures BindsOf(items) == BindsOf(rest)
    ensures QuietOf(items) == (items[0].QuietItem? || QuietOf(rest))
    ensures forall c :: CwdOf(items, c) == CwdOf(rest, if items[0].CwdItem? then Some(items[0].path) else c)
  {
  }

  /** Whatever words a run configuration came from, spelling it out canonically parses back to it. */
  lemma AcceptedRunReparses(words: seq<string>, r: RunArgs)
    requires Parse(words) == Ok(Run(r))
    ensures Parse(Render(Canonical(r)) + (["--"] + ([r.command] + r.args))) == Ok(Run(r))
  {
    if words != [] && words[0] == "probe" {
      ProbeResult(words[1..], []);
    } else {
      ScanResult(words, [], None, false, true);
      var binds := BindItems(r.binds);
      CanonicalBinds(r.binds);
      var items := Canonical(r);
      var head := [CwdItem(r.cwd, ShortCwd)] + binds;
      assert head[1..] == binds;
      HeadMeaning(head, binds);
      if r.quiet {
        assert items[1..] == head;
        HeadMeaning(items, head);
      } else {
        assert items == head;
      }
      assert ([r.command] + r.args)[1..] == r.args;
      RunRoundTrip(items, [r.command] + r.args);
    }
  }

  lemma {:induction false} ProbeResult(words: seq<string>, binds: seq<BindArg>)
    ensures ScanProbe(words, binds).Ok? ==> !ScanProbe(words, binds).value.Run?
    decreases |words|
  {
    if words != [] {
      var arg, rest := words[0], words[1..];
      if arg == "-b" || arg == "--bind" {
        if rest != [] && ParseBind(rest[0]).Ok? {
          ProbeResult(rest[1..], binds + [ParseBind(rest[0]).value]);
        }
      } else if StripPrefix(arg, "--bind=").Some? && ParseBind(StripPrefix(arg, "--bind=").value).Ok? {
        ProbeResult(rest, binds + [ParseBind(StripPrefix(arg, "--bind=").value).value]);
      }
    }
  }

  // ----- The whole grammar -----

  ghost predicate AllWritable(items: seq<Item>) {
    forall i :: 0 <= i < |items| ==> Writable(items[i])
  }

  /** What the options ask for, with the words after them as the command. */
  function Concluded(items: seq<Item>, command: seq<string>): Result<Parsed, ParseError> {
    if BindsOf(items) == [] then Err(MissingView)
    else if command == [] then Err(MissingCommand)
    else
      var cwd := CwdOf(items, None);
      Ok(Run(RunArgs(BindsOf(items), if cwd.Some? then cwd.value else "/", QuietOf(items), command[0], command[1..])))
  }

  /** Why a value is no bind. */
  ghost predicate BadBind(value: string, e: ParseError) {
    || (e == BindWithoutColon && ':' !in value)
    || exists source: string, destination: string :: BadParts(value, source, destination, e)
  }

  predicate BadParts(value: string, source: string, destination: string, e: ParseError) {
    && value == source + ":" + destination && ':' !in source
    && ((e == BindWithEmptyPart && (source == "" || destination == ""))
        || (e == BindNotAbsolute && source != "" && destination != "" && destination[0] != '/'))
  }

  const BARE: set<string> :=
    {"--", "-h", "--help", "-V", "--version", "--quiet", "-b", "--bind", "-w", "--cwd", "--pwd"}

  /** Begins with a dash and is no option. */
  predicate Unknown(word: string) {
    "-" <= word && word !in BARE && !("--bind=" <= word) && !("--cwd=" <= word) && !("--pwd=" <= word)
  }

  predicate IsBind(word: string) {
    word == "-b" || word == "--bind"
  }

  predicate IsCwd(word: string) {
    word == "-w" || word == "--cwd" || word == "--pwd"
  }

  /** The words after the options `items` end the reading with `r`: without a command, with one, or otherwise. */
  ghost predicate Stops(items: seq<Item>, tail: seq<string>, r: Result<Parsed, ParseError>) {
    || (tail == [] && r == Concluded(items, []))
    || (tail != [] && StopsAt(items, tail[0], tail[1..], r))
  }

  ghost predicate StopsAt(items: seq<Item>, word: string, rest: seq<string>, r: Result<Parsed, ParseError>) {
    || (word == "--" && r == Concluded(items, rest))
    || (!("-" <= word) && r == Concluded(items, [word] + rest))
    || ((word == "-h" || word == "--help") && r == Ok(Help))
    || ((word == "-V" || word == "--version") && r == Ok(Version))
    || (Unknown(word) && r == Err(UnknownOption(word)))
    || (IsBind(word) && rest == [] && r == Err(BindNeedsValue))
    || (IsBind(word) && rest != [] && r.Err? && BadBind(rest[0], r.error))
    || ("--bind=" <= word && r.Err? && BadBind(word[7..], r.error))
    || (IsCwd(word) && rest == [] && r == Err(CwdNeedsPath))
    || ((word == "--cwd=" || word == "--pwd=") && r == Err(CwdNeedsPath))
  }

  /** The words that begin an option's reading are told apart by their first letters. */
  lemma WordKinds(word: string)
    ensures word in BARE ==> "-" <= word && !("--bind=" <= word) && !("--cwd=" <= word) && !("--pwd=" <= word)
    ensures "--bind=" <= word || "--cwd=" <= word || "--pwd=" <= word ==> "-" <= word
    ensures "--bind=" <= word ==> !("--cwd=" <= word) && !("--pwd=" <= word)
    ensures "--cwd=" <= word ==> !("--pwd=" <= word)
  {
    if "--bind=" <= word {
      assert word[2] == 'b' && |word| >= 7;
    } else if "--cwd=" <= word {
      assert word[2] == 'c' && |word| >= 6 && word[5] == '=';
    } else if "--pwd=" <= word {
      assert word[2] == 'p' && |word| >= 6 && word[5] == '=';
    }
  }

  /** No option can be read from such words. */
  ghost predicate Halts(tail: seq<string>) {
    forall items: seq<Item> :: HaltsAfter(items, tail)
  }

  ghost predicate HaltsAfter(items: seq<Item>, tail: seq<string>) {
    exists r :: Stops(items, tail, r)
  }

  lemma {:induction false} SplitNowhere(s: string)
    ensures SplitOnce(s).None? <==> ':' !in s
    ensures SplitOnce(s).Some? ==> s == SplitOnce(s).value.0 + ":" + SplitOnce(s).value.1
  {
    if s != "" && s[0] != ':' {
      SplitNowhere(s[1..]);
    } else if s != "" {
      assert s == "" + ":" + s[1..];
    }
  }

  /** A value is a bind, or there is a reason why not. */
  lemma BadBindExactly(value: string, e: ParseError)
    ensures ParseBind(value) == Err(e) <==> BadBind(value, e)
  {
    SplitNowhere(value);
    SplitParts(value);
    if ParseBind(value) == Err(e) {
      assert e != BindWithoutColon ==> BadParts(value, SplitOnce(value).value.0, SplitOnce(value).value.1, e);
    } else if e != BindWithoutColon && BadBind(value, e) {
      var source: string, destination: string :| BadParts(value, source, destination, e);
      SplitAtFirstColon(source, destination);
    }
  }

  lemma GoodBind(value: string)
    requires ParseBind(value).Ok?
    ensures var b := ParseBind(value).value; Expressible(b) && value == b.source + ":" + b.destination
  {
    SplitNowhere(value);
    ParsedBindIsExpressible(value);
  }

  /** A word that ends the reading has that result. */
  lemma {:induction false} StopsIsScanned(items: seq<Item>, tail: seq<string>, r: Result<Parsed, ParseError>)
    requires Stops(items, tail, r)
    ensures Scan(tail, BindsOf(items), CwdOf(items, None), QuietOf(items), true) == r
  {
    if tail != [] {
      var word, rest := tail[0], tail[1..];
      assert tail == [word] + rest;
      WordKinds(word);
      if IsBind(word) && rest != [] {
        BadBindExactly(rest[0], r.error);
      } else if "--bind=" <= word {
        BadBindExactly(word[7..], r.error);
      }
    }
  }

  lemma FirstWords(words: seq<string>, prefix: string)
    requires words != [] && prefix <= words[0]
    ensures [prefix + words[0][|prefix|..]] <= words
    ensures words[1..] != [] ==> [words[0], words[1..][0]] <= words
  {
    assert prefix + words[0][|prefix|..] == words[0];
  }

  /** The first option of some words, unless they end the reading at once. */
  lemma {:induction false} FirstOption(words: seq<string>) returns (item: Option<Item>)
    requires words != []
    ensures item.Some? ==> Writable(item.value) && Words(item.value) <= words
    ensures item.None? ==> Halts(words)
  {
    var word, rest := words[0], words[1..];
    WordKinds(word);
    FirstWords(words, if "--bind=" <= word then "--bind=" else if "--cwd=" <= word then "--cwd="
                      else if "--pwd=" <= word then "--pwd=" else "");
    item := None;
    if word == "--quiet" {
      item := Some(QuietItem);
    } else if IsBind(word) && rest != [] && ParseBind(rest[0]).Ok? {
      GoodBind(rest[0]);
      item := Some(BindItem(ParseBind(rest[0]).value, if word == "-b" then ShortBind else LongBind));
    } else if "--bind=" <= word && ParseBind(word[7..]).Ok? {
      GoodBind(word[7..]);
      item := Some(BindItem(ParseBind(word[7..]).value, EqualsBind));
    } else if IsCwd(word) && rest != [] {
      item := Some(CwdItem(rest[0], if word == "-w" then ShortCwd else if word == "--cwd" then LongCwd else LongPwd));
    } else if ("--cwd=" <= word || "--pwd=" <= word) && |word| > 6 {
      item := Some(CwdItem(word[6..], if "--cwd=" <= word then EqualsCwd else EqualsPwd));
    } else {
      forall items: seq<Item> ensures HaltsAfter(items, words) {
        SomeStop(items, words);
      }
    }
  }

  lemma SomeStop(items: seq<Item>, words: seq<string>)
    requires words != [] && words[0] != "--quiet"
    requires IsBind(words[0]) && words[1..] != [] ==> ParseBind(words[1..][0]).Err?
    requires "--bind=" <= words[0] ==> ParseBind(words[0][7..]).Err?
    requires IsCwd(words[0]) ==> words[1..] == []
    requires "--cwd=" <= words[0] || "--pwd=" <= words[0] ==> |words[0]| <= 6
    ensures HaltsAfter(items, words)
  {
    var word, rest := words[0], words[1..];
    WordKinds(word);
    var r := if word == "--" then Concluded(items, rest)
             else if !("-" <= word) then Concluded(items, [word] + rest)
             else if word == "-h" || word == "--help" then Ok(Help)
             else if word == "-V" || word == "--version" then Ok(Version)
             else if IsBind(word) && rest == [] then Err(BindNeedsValue)
             else if IsBind(word) then Err(ParseBind(rest[0]).error)
             else if "--bind=" <= word then Err(ParseBind(word[7..]).error)
             else if IsCwd(word) || "--cwd=" <= word || "--pwd=" <= word then Err(CwdNeedsPath)
             else Err(UnknownOption(word));
    if IsBind(word) && rest != [] {
      BadBindExactly(rest[0], r.error);
    } else if "--bind=" <= word {
      BadBindExactly(word[7..], r.error);
    }
    assert StopsAt(items, word, rest, r);
    assert Stops(items, words, r);
  }

  lemma {:induction false} RenderCons(item: Item, items: seq<Item>)
    ensures Render([item] + items) == Words(item) + Render(items)
  {
    assert ([item] + items)[1..] == items;
  }

  /** Any words are some options, in some spelling, and then words that end the reading. */
  lemma {:induction false} ReadOptions(words: seq<string>) returns (items: seq<Item>, tail: seq<string>)
    ensures AllWritable(items) && words == Render(items) + tail
    ensures Halts(tail)
    decreases |words|
  {
    items, tail := [], words;
    if words == [] {
      forall all: seq<Item> ensures HaltsAfter(all, tail) {
        assert Stops(all, tail, Concluded(all, []));
      }
    } else {
      var item := FirstOption(words);
      if item.Some? {
        var rest := words[|Words(item.value)|..];
        assert words == Words(item.value) + rest;
        items, tail := ReadOptions(rest);
        RenderCons(item.value, items);
        items := [item.value] + items;
      }
    }
  }

  /**
    The grammar of a run: some words parse to `r` if and only if they are options in some spelling,
    followed by words that end the reading with `r`.
   */
  lemma {:induction false} ParseExactly(words: seq<string>, r: Result<Parsed, ParseError>)
    requires words == [] || words[0] != "probe"
    ensures Parse(words) == r <==>
            exists items: seq<Item>, tail: seq<string> ::
              AllWritable(items) && words == Render(items) + tail && Stops(items, tail, r)
  {
    var items, tail := ReadOptions(words);
    assert HaltsAfter(items, tail);
    var q :| Stops(items, tail, q);
    OptionsThenStop(items, tail, q);
    forall items': seq<Item>, tail': seq<string>
      | AllWritable(items') && words == Render(items') + tail' && Stops(items', tail', r)
      ensures Parse(words) == r
    {
      OptionsThenStop(items', tail', r);
    }
  }

  /** Any options in any spelling, then words that end the reading. */
  lemma {:induction false} OptionsThenStop(items: seq<Item>, tail: seq<string>, r: Result<Parsed, ParseError>)
    requires AllWritable(items) && Stops(items, tail, r)
    requires items == [] && tail != [] ==> tail[0] != "probe"
    ensures Parse(Render(items) + tail) == r
  {
    if items == [] {
      assert Render(items) + tail == tail;
    } else {
      OptionsAreNotProbe(items, tail);
    }
    ScanItems(items, tail, [], None, false);
    assert [] + BindsOf(items) == BindsOf(items);
    StopsIsScanned(items, tail, r);
  }

  /**
    After any options the command needs no `--` unless it begins with a dash: with and without it
    the words are the same configuration, with all of them verbatim.
   */
  lemma {:induction false} RunWithoutSeparator(items: seq<Item>, command: seq<string>)
    requires AllWritable(items) && BindsOf(items) != []
    requires command != [] && !("-" <= command[0])
    ensures Parse(Render(items) + command) == Parse(Render(items) + (["--"] + command))
    ensures Parse(Render(items) + command) ==
            Ok(Run(RunArgs(BindsOf(items), if CwdOf(items, None).Some? then CwdOf(items, None).value else "/",
                           QuietOf(items), command[0], command[1..])))
  {
    var r := Concluded(items, command);
    assert command == [command[0]] + command[1..];
    assert StopsAt(items, command[0], command[1..], r);
    OptionsThenStop(items, command, r);
    RunRoundTrip(items, command);
  }

  /** What help, version and an unknown option give after any options, whatever follows. */
  lemma {:induction false} EarlyEnds(items: seq<Item>, word: string, rest: seq<string>)
    requires AllWritable(items)
    ensures word == "-h" || word == "--help" ==> Parse(Render(items) + ([word] + rest)) == Ok(Help)
    ensures word == "-V" || word == "--version" ==> Parse(Render(items) + ([word] + rest)) == Ok(Version)
    ensures Unknown(word) ==> Parse(Render(items) + ([word] + rest)) == Err(UnknownOption(word))
  {
    var tail := [word] + rest;
    assert tail[1..] == rest;
    WordKinds(word);
    assert "probe"[0] != '-';
    if word == "-h" || word == "--help" {
      OptionsThenStop(items, tail, Ok(Help));
    } else if word == "-V" || word == "--version" {
      OptionsThenStop(items, tail, Ok(Version));
    } else if Unknown(word) {
      OptionsThenStop(items, tail, Err(UnknownOption(word)));
    }
  }

  // ----- The grammar of probe -----

  ghost predicate OnlyBinds(items: seq<Item>) {
    forall i :: 0 <= i < |items| ==> Writable(items[i]) && items[i].BindItem?
  }

  /** The words after some binds end the reading of a probe with `r`. */
  ghost predicate ProbeStops(items: seq<Item>, tail: seq<string>, r: Result<Parsed, ParseError>) {
    || (tail == [] && r == if items == [] then Err(ProbeNeedsBind) else Ok(Probe(BindsOf(items))))
    || (tail != [] && ProbeStopsAt(tail[0], tail[1..], r))
  }

  ghost predicate ProbeStopsAt(word: string, rest: seq<string>, r: Result<Parsed, ParseError>) {
    || ((word == "-h" || word == "--help") && r == Ok(Help))
    || (IsBind(word) && rest == [] && r == Err(BindNeedsValue))
    || (IsBind(word) && rest != [] && r.Err? && BadBind(rest[0], r.error))
    || ("--bind=" <= word && r.Err? && BadBind(word[7..], r.error))
    || (word != "-h" && word != "--help" && !IsBind(word) && !("--bind=" <= word)
        && r == Err(UnexpectedProbeArgument(word)))
  }

  lemma {:induction false} ProbeScanBind(b: BindArg, how: BindSpelling, tail: seq<string>, binds: seq<BindArg>)
    requires Expressible(b)
    ensures ScanProbe(Words(BindItem(b, how)) + tail, binds) == ScanProbe(tail, binds + [b])
  {
    var words := Words(BindItem(b, how)) + tail;
    BindParses(b);
    if how == EqualsBind {
      EqualsForm("--bind=", b.source + ":" + b.destination);
      assert words[1..] == tail;
    } else {
      assert words[1..][1..] == tail && words[1] == b.source + ":" + b.destination;
    }
  }

  lemma {:induction false} ProbeScanBinds(items: seq<Item>, tail: seq<string>, binds: seq<BindArg>)
    requires OnlyBinds(items)
    ensures ScanProbe(Render(items) + tail, binds) == ScanProbe(tail, binds + BindsOf(items))
    decreases |items|
  {
    if items == [] {
      assert Render(items) + tail == tail && binds + BindsOf(items) == binds;
    } else {
      RenderHead(items, tail);
      ProbeScanBind(items[0].bind, items[0].how, Render(items[1..]) + tail, binds);
      ProbeScanBinds(items[1..], tail, binds + [items[0].bind]);
      BindsHead(items, binds);
    }
  }

  lemma {:induction false} ProbeStopsIsScanned(items: seq<Item>, tail: seq<string>, r: Result<Parsed, ParseError>)
    requires OnlyBinds(items) && ProbeStops(items, tail, r)
    ensures ScanProbe(tail, BindsOf(items)) == r
  {
    if tail != [] {
      var word, rest := tail[0], tail[1..];
      WordKinds(word);
      if IsBind(word) && rest != [] {
        BadBindExactly(rest[0], r.error);
      } else if "--bind=" <= word {
        BadBindExactly(word[7..], r.error);
      }
    }
  }

  lemma {:induction false} FirstProbeBind(words: seq<string>) returns (item: Option<Item>)
    requires words != []
    ensures item.Some? ==> Writable(item.value) && item.value.BindItem? && Words(item.value) <= words
    ensures item.None? ==> ProbeStopsAt(words[0], words[1..], ScanProbe(words, []))
  {
    var word, rest := words[0], words[1..];
    WordKinds(word);
    FirstWords(words, if "--bind=" <= word then "--bind=" else "");
    item := None;
    if IsBind(word) && rest != [] && ParseBind(rest[0]).Ok? {
      GoodBind(rest[0]);
      item := Some(BindItem(ParseBind(rest[0]).value, if word == "-b" then ShortBind else LongBind));
    } else if "--bind=" <= word && ParseBind(word[7..]).Ok? {
      GoodBind(word[7..]);
      item := Some(BindItem(ParseBind(word[7..]).value, EqualsBind));
    } else if IsBind(word) && rest != [] {
      BadBindExactly(rest[0], ParseBind(rest[0]).error);
    } else if "--bind=" <= word {
      BadBindExactly(word[7..], ParseBind(word[7..]).error);
    }
  }

  lemma {:induction false} ReadProbeBinds(words: seq<string>) returns (items: seq<Item>, tail: seq<string>)
    ensures OnlyBinds(items) && words == Render(items) + tail
    ensures tail != [] ==> ProbeStopsAt(tail[0], tail[1..], ScanProbe(tail, []))
    decreases |words|
  {
    items, tail := [], words;
    if words != [] {
      var item := FirstProbeBind(words);
      if item.Some? {
        var rest := words[|Words(item.value)|..];
        assert words == Words(item.value) + rest;
        items, tail := ReadProbeBinds(rest);
        RenderCons(item.value, items);
        items := [item.value] + items;
      }
    }
  }

  /** `probe` parses to `r` exactly when binds in some spelling follow, and then words that end the reading with `r`. */
  lemma {:induction false} ProbeExactly(words: seq<string>, r: Result<Parsed, ParseError>)
    ensures Parse(["probe"] + words) == r <==>
            exists items: seq<Item>, tail: seq<string> ::
              OnlyBinds(items) && words == Render(items) + tail && ProbeStops(items, tail, r)
  {
    assert (["probe"] + words)[1..] == words;
    var items, tail := ReadProbeBinds(words);
    var q := if tail != [] then ScanProbe(tail, [])
             else if items == [] then Err(ProbeNeedsBind) else Ok(Probe(BindsOf(items)));
    assert ProbeStops(items, tail, q);
    BindsThenStop(items, tail, q);
    forall items': seq<Item>, tail': seq<string>
      | OnlyBinds(items') && words == Render(items') + tail' && ProbeStops(items', tail', r)
      ensures ScanProbe(words, []) == r
    {
      BindsThenStop(items', tail', r);
    }
  }

  lemma {:induction false} BindsThenStop(items: seq<Item>, tail: seq<string>, r: Result<Parsed, ParseError>)
    requires OnlyBinds(items) && ProbeStops(items, tail, r)
    ensures ScanProbe(Render(items) + tail, []) == r
  {
    ProbeScanBinds(items, tail, []);
    assert [] + BindsOf(items) == BindsOf(items);
    ProbeStopsIsScanned(items, tail, r);
  }
}
