/** From the cloud form to the command that is run: the form builder
    (webembed/src/app/51-connection-imports.js) writes a quoted command line;
    the server (internal/server/cloud_kubeconfig.go) lexes it, parses its
    options and builds an argument list. */
module CloudCommands {
  import opened Text
  import opened Wrappers
  import opened ShellWords

  // ------------------------------------------------------------ option parsing

  /** The result keys of the option tables. */
  datatype Key =
    | Name | Region | Profile | Role | Alias | UserAlias
    | Location | Zone | Project | Account | Configuration | Impersonate
    | Internal | Dns | Quiet

  type Table = map<string, Key>
  datatype Parsed = Parsed(values: map<Key, string>, flags: set<Key>, positionals: seq<string>)
  datatype OptionError =
    | NeedsValue(option: string)
    | NotLiteral(option: string)
    | OnlyTrue(option: string)
    | Unsupported(option: string)
    | ShellVariable

  const NOTHING := Parsed(map[], {}, [])

  predicate Literal(s: string) {
    '$' !in s && '`' !in s
  }

  /** A long option may carry its value after an equals sign. */
  function SplitOption(word: string): (string, string) {
    if HasPrefix(word, "--") then
      match CutAt(word, "=")
      case Cut(before, after) => (before, after)
      case NoCut => (word, "")
    else (word, "")
  }

  function With(acc: Parsed, key: Key, value: string): Parsed {
    if value == "" then acc else acc.(values := acc.values[key := value])
  }

  function Parse(words: seq<string>, valueOptions: Table, flagOptions: Table, acc: Parsed): Result<Parsed, OptionError>
    decreases |words|
  {
    if words == [] then Ok(acc)
    else
      var word := words[0];
      var (option, inline) := SplitOption(word);
      if option in valueOptions then
        if inline != "" then
          if !Literal(inline) then Err(NotLiteral(option))
          else Parse(words[1..], valueOptions, flagOptions, With(acc, valueOptions[option], inline))
        else if |words| == 1 then Err(NeedsValue(option))
        else if words[1] == "" || !Literal(words[1]) then Err(NotLiteral(option))
        else Parse(words[2..], valueOptions, flagOptions, With(acc, valueOptions[option], words[1]))
      else if option in flagOptions then
        if inline != "" && inline != "true" then Err(OnlyTrue(option))
        else Parse(words[1..], valueOptions, flagOptions, acc.(flags := acc.flags + {flagOptions[option]}))
      else if HasPrefix(word, "-") then Err(Unsupported(option))
      else if !Literal(word) then Err(ShellVariable)
      else Parse(words[1..], valueOptions, flagOptions, acc.(positionals := acc.positionals + [word]))
  }

  /** parseCommandOptions */
  method ParseCommandOptions(words: seq<string>, valueOptions: Table, flagOptions: Table)
    returns (r: Result<Parsed, OptionError>)
    ensures r == Parse(words, valueOptions, flagOptions, NOTHING)
  {
    var values: map<Key, string> := map[];
    var flags: set<Key> := {};
    var positionals: seq<string> := [];
    var index := 0;
    while index < |words|
      invariant 0 <= index <= |words|
      invariant Parse(words, valueOptions, flagOptions, NOTHING)
        == Parse(words[index..], valueOptions, flagOptions, Parsed(values, flags, positionals))
    {
      ghost var rest := words[index..];
      assert rest[1..] == words[index + 1..];
      assert |rest| >= 2 ==> rest[2..] == words[index + 2..];
      var word := words[index];
      var (option, inline) := SplitOption(word);
      if option in valueOptions {
        var value := inline;
        if value == "" {
          index := index + 1;
          if index >= |words| { return Err(NeedsValue(option)); }
          value := words[index];
        }
        if value == "" || !Literal(value) { return Err(NotLiteral(option)); }
        values := values[valueOptions[option] := value];
      } else if option in flagOptions {
        if inline != "" && inline != "true" { return Err(OnlyTrue(option)); }
        flags := flags + {flagOptions[option]};
      } else if HasPrefix(word, "-") {
        return Err(Unsupported(option));
      } else if !Literal(word) {
        return Err(ShellVariable);
      } else {
        positionals := positionals + [word];
      }
      index := index + 1;
    }
    return Ok(Parsed(values, flags, positionals));
  }

  function Value(p: Parsed, key: Key): string {
    if key in p.values then p.values[key] else ""
  }

  // ---------------------------------------------------------------- the plans

  datatype Plan = Plan(
    executable: string, args: seq<string>, name: string, execAllowlist: seq<string>,
    environment: map<string, string>, stdoutConfig: bool)
  datatype ImportError = BadText(lexError: LexError) | PasteCommand | BadOption(optionError: OptionError) | MissingName

  function StripSlashes(path: string): string {
    if path != "" && path[|path| - 1] == '/' then StripSlashes(path[..|path| - 1]) else path
  }

  function AfterLastSlash(path: string): string {
    if path == "" || path[|path| - 1] == '/' then "" else AfterLastSlash(path[..|path| - 1]) + [path[|path| - 1]]
  }

  /** filepath.Base */
  function Base(path: string): string {
    if path == "" then "."
    else var p := StripSlashes(path); if p == "" then "/" else AfterLastSlash(p)
  }

  function ExecutableName(value: string): string {
    TrimSuffix(ToLower(Base(value)), ".exe")
  }

  function Remainder(words: seq<string>, executable: string, subcommands: seq<string>): Option<seq<string>> {
    if |words| < 1 + |subcommands| || ExecutableName(words[0]) != executable then None
    else if words[1..1 + |subcommands|] == subcommands then Some(words[1 + |subcommands|..])
    else None
  }

  /** commandRemainder */
  method CommandRemainder(words: seq<string>, executable: string, subcommands: seq<string>)
    returns (r: Option<seq<string>>)
    ensures r == Remainder(words, executable, subcommands)
  {
    if |words| < 1 + |subcommands| || ExecutableName(words[0]) != executable { return None; }
    for index := 0 to |subcommands|
      invariant words[1..1 + index] == subcommands[..index]
    {
      assert words[1..1 + (index + 1)] == words[1..1 + index] + [words[index + 1]];
      if words[index + 1] != subcommands[index] {
        assert words[1..1 + |subcommands|][index] != subcommands[index];
        return None;
      }
    }
    assert subcommands[..|subcommands|] == subcommands;
    return Some(words[1 + |subcommands|..]);
  }

  type Item = (string, Key)

  function OptionWords(option: string, value: string): seq<string> {
    if value == "" then [] else [option, value]
  }

  function OptionArgs(items: seq<Item>, p: Parsed): seq<string> {
    if items == [] then []
    else OptionArgs(items[..|items| - 1], p) + OptionWords(items[|items| - 1].0, Value(p, items[|items| - 1].1))
  }

  function FlagArgs(items: seq<Item>, p: Parsed): seq<string> {
    if items == [] then []
    else FlagArgs(items[..|items| - 1], p) + if items[|items| - 1].1 in p.flags then [items[|items| - 1].0] else []
  }

  method AppendOptions(args: seq<string>, items: seq<Item>, p: Parsed) returns (more: seq<string>)
    ensures more == args + OptionArgs(items, p)
  {
    more := args;
    for i := 0 to |items|
      invariant more == args + OptionArgs(items[..i], p)
    {
      assert items[..i + 1][..i] == items[..i];
      if Value(p, items[i].1) != "" {
        more := more + [items[i].0, Value(p, items[i].1)];
      }
    }
    assert items[..|items|] == items;
  }

  method AppendFlags(args: seq<string>, items: seq<Item>, p: Parsed) returns (more: seq<string>)
    ensures more == args + FlagArgs(items, p)
  {
    more := args;
    for i := 0 to |items|
      invariant more == args + FlagArgs(items[..i], p)
    {
      assert items[..i + 1][..i] == items[..i];
      if items[i].1 in p.flags {
        more := more + [items[i].0];
      }
    }
    assert items[..|items|] == items;
  }

  const EKS_TABLE: Table := map[
    "--name" := Name, "--region" := Region, "--profile" := Profile,
    "--role-arn" := Role, "--alias" := Alias, "--user-alias" := UserAlias]
  const EKS_SUBCOMMANDS := ["eks", "update-kubeconfig"]
  const EKS_BEFORE: seq<Item> := [("--profile", Profile), ("--region", Region)]
  const EKS_AFTER: seq<Item> := [("--role-arn", Role), ("--alias", Alias), ("--user-alias", UserAlias)]

  function EksArgs(p: Parsed): seq<string> {
    OptionArgs(EKS_BEFORE, p) + ["eks", "update-kubeconfig", "--name", Value(p, Name), "--dry-run"]
      + OptionArgs(EKS_AFTER, p)
  }

  function EksEnvironment(profile: string): map<string, string> {
    if profile == "" then map[] else map["AWS_PROFILE" := profile]
  }

  function EksPlanOf(p: Parsed): Result<Plan, ImportError> {
    if Value(p, Name) == "" then Err(MissingName)
    else Ok(Plan("aws", EksArgs(p), Value(p, Name), ["aws"], EksEnvironment(Value(p, Profile)), true))
  }

  function EksPlan(words: seq<string>): Result<Plan, ImportError> {
    match Remainder(words, "aws", EKS_SUBCOMMANDS)
    case None => Err(PasteCommand)
    case Some(rest) =>
      match Parse(rest, EKS_TABLE, map[], NOTHING)
      case Err(e) => Err(BadOption(e))
      case Ok(p) => EksPlanOf(p)
  }

  /** buildEKSCommand */
  method BuildEksCommand(words: seq<string>) returns (r: Result<Plan, ImportError>)
    ensures r == EksPlan(words)
  {
    var rest := CommandRemainder(words, "aws", EKS_SUBCOMMANDS);
    if rest.None? { return Err(PasteCommand); }
    var parsed := ParseCommandOptions(rest.value, EKS_TABLE, map[]);
    if parsed.Err? { return Err(BadOption(parsed.error)); }
    var p := parsed.value;
    if Value(p, Name) == "" { return Err(MissingName); }
    var args := AppendOptions([], EKS_BEFORE, p);
    args := args + ["eks", "update-kubeconfig", "--name", Value(p, Name), "--dry-run"];
    args := AppendOptions(args, EKS_AFTER, p);
    assert args == EksArgs(p);
    var environment: map<string, string> := map[];
    if Value(p, Profile) != "" { environment := environment["AWS_PROFILE" := Value(p, Profile)]; }
    return Ok(Plan("aws", args, Value(p, Name), ["aws"], environment, true));
  }

  const GKE_TABLE: Table := map[
    "--location" := Location, "--region" := Region, "--zone" := Zone, "-z" := Zone, "--project" := Project,
    "--account" := Account, "--configuration" := Configuration, "--impersonate-service-account" := Impersonate]
  const GKE_FLAGS: Table := map["--internal-ip" := Internal, "--dns-endpoint" := Dns, "--quiet" := Quiet]
  const GKE_SUBCOMMANDS := ["container", "clusters", "get-credentials"]
  const GKE_ITEMS: seq<Item> := [
    ("--location", Location), ("--region", Region), ("--zone", Zone), ("--project", Project),
    ("--account", Account), ("--configuration", Configuration), ("--impersonate-service-account", Impersonate)]
  const GKE_FLAG_ITEMS: seq<Item> := [("--internal-ip", Internal), ("--dns-endpoint", Dns), ("--quiet", Quiet)]

  /** The positionals joined by NUL, as the Go code keeps them. */
  function Positionals(p: Parsed): string {
    Join(p.positionals, "\U{00}")
  }

  function GkePlanFor(name: string, p: Parsed): Plan {
    Plan("gcloud", GKE_SUBCOMMANDS + [name] + OptionArgs(GKE_ITEMS, p) + FlagArgs(GKE_FLAG_ITEMS, p), name,
         ["gke-gcloud-auth-plugin", "gcloud"], map[], false)
  }

  function GkePlanOf(p: Parsed): Result<Plan, ImportError> {
    var name := Positionals(p);
    if name == "" || '\U{00}' in name then Err(MissingName) else Ok(GkePlanFor(name, p))
  }

  function GkePlan(words: seq<string>): Result<Plan, ImportError> {
    match Remainder(words, "gcloud", GKE_SUBCOMMANDS)
    case None => Err(PasteCommand)
    case Some(rest) =>
      match Parse(rest, GKE_TABLE, GKE_FLAGS, NOTHING)
      case Err(e) => Err(BadOption(e))
      case Ok(p) => GkePlanOf(p)
  }

  /** buildGKECommand */
  method BuildGkeCommand(words: seq<string>) returns (r: Result<Plan, ImportError>)
    ensures r == GkePlan(words)
  {
    var rest := CommandRemainder(words, "gcloud", GKE_SUBCOMMANDS);
    if rest.None? { return Err(PasteCommand); }
    var parsed := ParseCommandOptions(rest.value, GKE_TABLE, GKE_FLAGS);
    if parsed.Err? { return Err(BadOption(parsed.error)); }
    var p := parsed.value;
    var name := Join(p.positionals, "\U{00}");
    if name == "" || '\U{00}' in name { return Err(MissingName); }
    var args := GKE_SUBCOMMANDS + [name];
    args := AppendOptions(args, GKE_ITEMS, p);
    args := AppendFlags(args, GKE_FLAG_ITEMS, p);
    return Ok(Plan("gcloud", args, name, ["gke-gcloud-auth-plugin", "gcloud"], map[], false));
  }

  // -------------------------------------------------------------- the form side

  datatype EksForm = EksForm(cluster: string, region: string, profile: string, role: string)
  datatype GkeForm = GkeForm(cluster: string, location: string, project: string, account: string)

  function EksFormWords(f: EksForm): seq<string> {
    if f.cluster == "" then []
    else ["aws", "eks", "update-kubeconfig"] + (OptionWords("--region", f.region) + (OptionWords("--name", f.cluster)
         + (OptionWords("--profile", f.profile) + OptionWords("--role-arn", f.role))))
  }

  function GkeFormWords(f: GkeForm): seq<string> {
    if f.cluster == "" then []
    else ["gcloud", "container", "clusters", "get-credentials", f.cluster] + (OptionWords("--location", f.location)
         + (OptionWords("--project", f.project) + OptionWords("--account", f.account)))
  }

  /** addCommandOption */
  method AddCommandOption(parts: seq<string>, option: string, value: string) returns (more: seq<string>)
    ensures more == parts + OptionWords(option, value)
  {
    more := parts;
    if value != "" { more := more + [option, value]; }
  }

  /** The EKS branch of updateCloudCommandFromFields; fields arrive trimmed. */
  method EksCommandFromFields(f: EksForm) returns (command: string)
    ensures command == QuotedCommand(EksFormWords(f))
  {
    var parts: seq<string> := [];
    if f.cluster != "" {
      parts := ["aws", "eks", "update-kubeconfig"];
      parts := AddCommandOption(parts, "--region", f.region);
      parts := AddCommandOption(parts, "--name", f.cluster);
      parts := AddCommandOption(parts, "--profile", f.profile);
      parts := AddCommandOption(parts, "--role-arn", f.role);
    }
    assert parts == EksFormWords(f);
    command := Join(QuoteAll(parts), " ");
  }

  /** Its GKE branch. */
  method GkeCommandFromFields(f: GkeForm) returns (command: string)
    ensures command == QuotedCommand(GkeFormWords(f))
  {
    var parts: seq<string> := [];
    if f.cluster != "" {
      parts := ["gcloud", "container", "clusters", "get-credentials", f.cluster];
      parts := AddCommandOption(parts, "--location", f.location);
      parts := AddCommandOption(parts, "--project", f.project);
      parts := AddCommandOption(parts, "--account", f.account);
    }
    assert parts == GkeFormWords(f);
    command := Join(QuoteAll(parts), " ");
  }

  /** What the import handler makes of a command text. */
  function EksImport(command: string): Result<Plan, ImportError> {
    match GoWords(command)
    case Err(e) => Err(BadText(e))
    case Ok(words) => EksPlan(words)
  }

  function GkeImport(command: string): Result<Plan, ImportError> {
    match GoWords(command)
    case Err(e) => Err(BadText(e))
    case Ok(words) => GkePlan(words)
  }

  // ------------------------------------------------- parsing one option at a time

  predicate SimpleOption(option: string) {
    HasPrefix(option, "--") && '=' !in option
  }

  lemma SplitSimple(option: string)
    requires SimpleOption(option)
    ensures SplitOption(option) == (option, "")
  {
    IndexNeedsCharacter(option, "=", '=');
  }

  lemma ParseOption(option: string, value: string, rest: seq<string>, vo: Table, fo: Table, acc: Parsed)
    requires SimpleOption(option) && option in vo
    ensures Parse(OptionWords(option, value) + rest, vo, fo, acc)
      == if Literal(value) then Parse(rest, vo, fo, With(acc, vo[option], value)) else Err(NotLiteral(option))
  {
    SplitSimple(option);
    if value == "" {
      assert OptionWords(option, value) + rest == rest;
    } else {
      var words := OptionWords(option, value) + rest;
      assert words[0] == option && words[1] == value && words[2..] == rest;
    }
  }

  lemma ParseFlag(option: string, rest: seq<string>, vo: Table, fo: Table, acc: Parsed)
    requires SimpleOption(option) && option !in vo && option in fo
    ensures Parse([option] + rest, vo, fo, acc) == Parse(rest, vo, fo, acc.(flags := acc.flags + {fo[option]}))
  {
    SplitSimple(option);
    assert ([option] + rest)[1..] == rest;
  }

  lemma ParsePositional(word: string, rest: seq<string>, vo: Table, fo: Table, acc: Parsed)
    requires !HasPrefix(word, "-") && word !in vo && word !in fo
    ensures Parse([word] + rest, vo, fo, acc)
      == if Literal(word) then Parse(rest, vo, fo, acc.(positionals := acc.positionals + [word]))
        else Err(ShellVariable)
  {
    assert !HasPrefix(word, "--") by { if |word| >= 2 { assert word[..1][0] == word[0] == word[..2][0]; } }
    assert ([word] + rest)[1..] == rest;
  }

  // ------------------------------------------------------ values after an equals sign

  /** An option that takes a value, written in one word or in two. */
  datatype Setting = Setting(option: string, value: string, inline: bool)

  function SettingWords(s: Setting): seq<string> {
    if s.inline then [s.option + "=" + s.value] else [s.option, s.value]
  }

  function AllSettingWords(ss: seq<Setting>): seq<string> {
    if ss == [] then [] else SettingWords(ss[0]) + AllSettingWords(ss[1..])
  }

  predicate RightSetting(s: Setting, vo: Table) {
    SimpleOption(s.option) && s.option in vo && s.value != ""
  }

  function Separate(s: Setting): Setting {
    s.(inline := false)
  }

  function AllSeparate(ss: seq<Setting>): seq<Setting> {
    if ss == [] then [] else [Separate(ss[0])] + AllSeparate(ss[1..])
  }

  lemma SplitInline(option: string, value: string)
    requires SimpleOption(option)
    ensures SplitOption(option + "=" + value) == (option, value)
  {
    var word := option + "=" + value;
    assert word[..2] == option[..2];
    forall j: nat | j < |option| ensures !OccursAt(word, "=", j) {
      assert word[j] == option[j];
      NotAt(word, "=", j, 0);
    }
    assert OccursAt(word, "=", |option|);
    IndexIs(word, "=", |option|);
    assert word[..|option|] == option && word[|option| + 1..] == value;
  }

  lemma ParseSetting(s: Setting, rest: seq<string>, vo: Table, fo: Table, acc: Parsed)
    requires RightSetting(s, vo)
    ensures Parse(SettingWords(s) + rest, vo, fo, acc)
      == if Literal(s.value) then Parse(rest, vo, fo, With(acc, vo[s.option], s.value)) else Err(NotLiteral(s.option))
  {
    if s.inline {
      SplitInline(s.option, s.value);
      assert (SettingWords(s) + rest)[1..] == rest;
    } else {
      ParseOption(s.option, s.value, rest, vo, fo, acc);
    }
  }

  /** Values after an equals sign mean what they would as words of their own, in
      every parse and with the same errors. */
  lemma {:induction false} InlineValuesAlike(ss: seq<Setting>, rest: seq<string>, vo: Table, fo: Table, acc: Parsed)
    requires forall i :: 0 <= i < |ss| ==> RightSetting(ss[i], vo)
    ensures Parse(AllSettingWords(ss) + rest, vo, fo, acc)
      == Parse(AllSettingWords(AllSeparate(ss)) + rest, vo, fo, acc)
    decreases |ss|
  {
    hide Parse, With, Literal, SettingWords, RightSetting;
    if ss != [] {
      var s, more, separate := ss[0], AllSettingWords(ss[1..]), AllSettingWords(AllSeparate(ss[1..]));
      SeparateRight(s, vo);
      ParseSetting(s, more + rest, vo, fo, acc);
      ParseSetting(Separate(s), separate + rest, vo, fo, acc);
      InlineValuesAlike(ss[1..], rest, vo, fo, With(acc, vo[s.option], s.value));
      assert SettingWords(s) + more + rest == SettingWords(s) + (more + rest);
      assert AllSeparate(ss)[1..] == AllSeparate(ss[1..]);
      assert SettingWords(Separate(s)) + separate + rest == SettingWords(Separate(s)) + (separate + rest);
    }
  }

  lemma SeparateRight(s: Setting, vo: Table)
    requires RightSetting(s, vo)
    ensures RightSetting(Separate(s), vo) && s.option in vo
  {
  }

  /** A flag may say that it is true, and nothing else. */
  lemma FlagSaysTrue(option: string, value: string, rest: seq<string>, vo: Table, fo: Table, acc: Parsed)
    requires SimpleOption(option) && option !in vo && option in fo
    ensures Parse([option + "=" + value] + rest, vo, fo, acc)
      == if value == "" || value == "true" then Parse([option] + rest, vo, fo, acc) else Err(OnlyTrue(option))
  {
    SplitInline(option, value);
    ParseFlag(option, rest, vo, fo, acc);
    assert ([option + "=" + value] + rest)[1..] == rest;
  }

  // ----------------------------------------------------- the command and its executable

  /** The words are an executable of that name, the subcommands and the rest. */
  lemma RemainderExact(words: seq<string>, executable: string, subcommands: seq<string>, rest: seq<string>)
    ensures Remainder(words, executable, subcommands) == Some(rest) <==>
      words != [] && ExecutableName(words[0]) == executable && words == [words[0]] + subcommands + rest
  {
    hide ExecutableName;
    var n := 1 + |subcommands|;
    if |words| >= n { assert words == [words[0]] + words[1..n] + words[n..]; }
    if words != [] && words == [words[0]] + subcommands + rest {
      assert words[1..n] == subcommands && words[n..] == rest;
    }
  }

  /** Every plan names its cluster: a command without a name is refused. */
  lemma PlansAreNamed(words: seq<string>)
    ensures EksPlan(words).Ok? ==>
      var plan := EksPlan(words).value; plan.name != "" && plan.executable == "aws" && plan.name in plan.args
    ensures GkePlan(words).Ok? ==>
      var plan := GkePlan(words).value; plan.name != "" && plan.executable == "gcloud" && plan.name in plan.args
  {
    hide Parse, Remainder, OptionArgs, FlagArgs, Positionals;
  }

  lemma {:induction false} AfterSlash(dir: string, name: string)
    requires '/' !in name
    ensures AfterLastSlash(dir + "/" + name) == name == AfterLastSlash(name)
  {
    var path := dir + "/" + name;
    if name != "" {
      var n := |name| - 1;
      AfterSlash(dir, name[..n]);
      assert path[..|path| - 1] == dir + "/" + name[..n] && path[|path| - 1] == name[n];
    }
  }

  /** A slash at the end of a path says nothing. */
  lemma BaseOfPath(dir: string, name: string)
    requires name != "" && '/' !in name
    ensures Base(dir + "/" + name) == Base(dir + "/" + name + "/") == Base(name) == name
    ensures Base("/") == "/" && Base("") == "."
  {
    AfterSlash(dir, name);
    var path := dir + "/" + name;
    assert path[|path| - 1] == name[|name| - 1];
    assert StripSlashes(path) == path && StripSlashes(name) == name;
    assert (path + "/")[..|path|] == path;
    assert StripSlashes("/") == StripSlashes("") by { assert "/"[..0] == ""; }
  }

  /** An executable is known by the last name of its path, in any case of letters
      and with or without ".exe". */
  lemma ExecutableFound(dir: string, name: string)
    requires name != "" && '/' !in name
    ensures ExecutableName(dir + "/" + name) == ExecutableName(name) == TrimSuffix(ToLower(name), ".exe")
    ensures ExecutableName("AWS.exe") == "aws" == ExecutableName("aws")
  {
    hide ToLower, TrimSuffix;
    AfterSlash(dir, name);
    var path := dir + "/" + name;
    assert path[|path| - 1] == name[|name| - 1];
    AwsNames();
  }

  lemma AwsNames()
    ensures ExecutableName("AWS.exe") == "aws" == ExecutableName("aws")
  {
    AfterSlash("", "AWS.exe");
    AfterSlash("", "aws");
    assert ToLower("AWS.exe") == "aws.exe" && ToLower("aws") == "aws";
    assert "aws.exe"[3..] == ".exe" && "aws.exe"[..3] == "aws";
  }

  // --------------------------------------------------- from the form to the plan

  predicate SingleLine(s: string) {
    '\n' !in s
  }

  lemma {:induction false} SingleLineIntact(s: string)
    requires SingleLine(s)
    ensures !HasContinuation(s)
  {
    if s != "" { SingleLineIntact(s[1..]); }
  }

  ghost predicate AllSingle(words: seq<string>) {
    forall i :: 0 <= i < |words| ==> words[i] != "" && SingleLine(words[i])
  }

  lemma AllSingleConcat(a: seq<string>, b: seq<string>)
    requires AllSingle(a) && AllSingle(b)
    ensures AllSingle(a + b)
  {
  }

  lemma OptionWordsSingle(option: string, value: string)
    requires SimpleOption(option) && SingleLine(option) && SingleLine(value)
    ensures AllSingle(OptionWords(option, value))
  {
  }

  lemma SingleLex(words: seq<string>)
    requires AllSingle(words) && words != []
    ensures GoWords(QuotedCommand(words)) == Ok(words)
  {
    QuoteLexInverse(words);
    forall i | 0 <= i < |words| ensures Intact(words[i]) { SingleLineIntact(words[i]); }
  }

  /** What the EKS form should turn into. */
  function EksExpected(f: EksForm): Plan {
    Plan("aws",
         OptionWords("--profile", f.profile) + OptionWords("--region", f.region)
         + ["eks", "update-kubeconfig", "--name", f.cluster, "--dry-run"] + OptionWords("--role-arn", f.role),
         f.cluster, ["aws"], if f.profile == "" then map[] else map["AWS_PROFILE" := f.profile], true)
  }

  /** No field holds a dollar sign or a backtick. */
  predicate EksLiteral(f: EksForm) {
    var text := f.cluster + f.region + f.profile + f.role;
    forall i :: 0 <= i < |text| ==> text[i] != '$' && text[i] != '`'
  }

  lemma EksLiteralIs(f: EksForm)
    ensures EksLiteral(f) <==> Literal(f.cluster) && Literal(f.region) && Literal(f.profile) && Literal(f.role)
  {
    var text := f.cluster + f.region + f.profile + f.role;
    assert forall c :: c in text <==> c in f.cluster || c in f.region || c in f.profile || c in f.role;
    assert EksLiteral(f) <==> '$' !in text && '`' !in text;
  }

  function EksParsed(f: EksForm): Parsed {
    With(With(With(With(NOTHING, Region, f.region), Name, f.cluster), Profile, f.profile), Role, f.role)
  }

  lemma EksTableFacts()
    ensures "--region" in EKS_TABLE && EKS_TABLE["--region"] == Region
      && SimpleOption("--region") && SingleLine("--region")
    ensures "--name" in EKS_TABLE && EKS_TABLE["--name"] == Name && SimpleOption("--name") && SingleLine("--name")
    ensures "--profile" in EKS_TABLE && EKS_TABLE["--profile"] == Profile
      && SimpleOption("--profile") && SingleLine("--profile")
    ensures "--role-arn" in EKS_TABLE && EKS_TABLE["--role-arn"] == Role
      && SimpleOption("--role-arn") && SingleLine("--role-arn")
  {
  }

  lemma EksParse(f: EksForm)
    ensures var rest := OptionWords("--region", f.region) + (OptionWords("--name", f.cluster)
         + (OptionWords("--profile", f.profile) + OptionWords("--role-arn", f.role)));
      var r := Parse(rest, EKS_TABLE, map[], NOTHING);
      if EksLiteral(f) then r == Ok(EksParsed(f)) else r.Err?
  {
    hide OptionWords, Literal, With, SimpleOption, EksLiteral;
    EksTableFacts();
    EksLiteralIs(f);
    var d := OptionWords("--role-arn", f.role);
    var c := OptionWords("--profile", f.profile) + d;
    var b := OptionWords("--name", f.cluster) + c;
    var p1 := With(NOTHING, Region, f.region);
    var p2 := With(p1, Name, f.cluster);
    var p3 := With(p2, Profile, f.profile);
    ParseOption("--region", f.region, b, EKS_TABLE, map[], NOTHING);
    ParseOption("--name", f.cluster, c, EKS_TABLE, map[], p1);
    ParseOption("--profile", f.profile, d, EKS_TABLE, map[], p2);
    ParseOption("--role-arn", f.role, [], EKS_TABLE, map[], p3);
    assert d + [] == d;
  }

  lemma EksParsedValues(f: EksForm)
    ensures var p := EksParsed(f);
      && Value(p, Name) == f.cluster && Value(p, Region) == f.region && Value(p, Profile) == f.profile
      && Value(p, Role) == f.role && Value(p, Alias) == "" && Value(p, UserAlias) == ""
  {
  }

  lemma EksOptions(p: Parsed)
    ensures OptionArgs(EKS_BEFORE, p)
      == OptionWords("--profile", Value(p, Profile)) + OptionWords("--region", Value(p, Region))
    ensures OptionArgs(EKS_AFTER, p)
      == OptionWords("--role-arn", Value(p, Role)) + OptionWords("--alias", Value(p, Alias))
      + OptionWords("--user-alias", Value(p, UserAlias))
  {
    hide OptionArgs, OptionWords, Value;
    TwoOptions(("--profile", Profile), ("--region", Region), p);
    TwoOptions(("--role-arn", Role), ("--alias", Alias), p);
    OneMoreOption([("--role-arn", Role), ("--alias", Alias)], ("--user-alias", UserAlias), p);
    assert EKS_AFTER == [("--role-arn", Role), ("--alias", Alias)] + [("--user-alias", UserAlias)];
  }

  lemma EksParsedPlan(f: EksForm)
    requires f.cluster != ""
    ensures EksPlanOf(EksParsed(f)) == Ok(EksExpected(f))
  {
    hide OptionArgs, Value, With, EKS_BEFORE, EKS_AFTER;
    EksParsedValues(f);
    EksOptions(EksParsed(f));
    assert OptionWords("--alias", "") == [] && OptionWords("--user-alias", "") == [];
    assert EksArgs(EksParsed(f)) == EksExpected(f).args;
  }

  lemma OneMoreOption(items: seq<Item>, item: Item, p: Parsed)
    ensures OptionArgs(items + [item], p) == OptionArgs(items, p) + OptionWords(item.0, Value(p, item.1))
  {
    assert (items + [item])[..|items|] == items;
  }

  lemma TwoOptions(a: Item, b: Item, p: Parsed)
    ensures OptionArgs([a, b], p) == OptionWords(a.0, Value(p, a.1)) + OptionWords(b.0, Value(p, b.1))
  {
    assert [] + [a] == [a] && [a] + [b] == [a, b];
    OneMoreOption([], a, p);
    OneMoreOption([a], b, p);
  }

  lemma EksPrefix(rest: seq<string>)
    ensures Remainder(["aws", "eks", "update-kubeconfig"] + rest, "aws", EKS_SUBCOMMANDS) == Some(rest)
  {
    var words := ["aws", "eks", "update-kubeconfig"] + rest;
    assert words[1..3] == EKS_SUBCOMMANDS && words[3..] == rest;
    assert AfterLastSlash("") == "" && AfterLastSlash("a") == "a" && "aw"[..1] == "a"
      && AfterLastSlash("aw") == "aw" && "aws"[..2] == "aw";
    assert Base("aws") == "aws";
    assert ToLower("aws") == "aws";
  }

  /** The EKS form reaches the command line unchanged: the plan carries exactly
      the field values, and is made exactly when every field is a literal. */
  lemma EksFormToPlan(f: EksForm)
    requires SingleLine(f.cluster) && SingleLine(f.region) && SingleLine(f.profile) && SingleLine(f.role)
    ensures var r := EksImport(QuotedCommand(EksFormWords(f)));
      if f.cluster == "" then r == Err(BadText(CommandRequired))
      else if EksLiteral(f) then r == Ok(EksExpected(f))
      else r.Err?
  {
    var words := EksFormWords(f);
    if f.cluster == "" {
      QuoteLexInverse(words);
    } else {
      var rest := OptionWords("--region", f.region) + (OptionWords("--name", f.cluster)
         + (OptionWords("--profile", f.profile) + OptionWords("--role-arn", f.role)));
      EksWordsSingle(f);
      SingleLex(words);
      EksPrefix(rest);
      EksParse(f);
      EksParsedPlan(f);
    }
  }

  lemma EksWordsSingle(f: EksForm)
    requires SingleLine(f.cluster) && SingleLine(f.region) && SingleLine(f.profile) && SingleLine(f.role)
    ensures AllSingle(EksFormWords(f))
  {
    EksTableFacts();
    var d := OptionWords("--role-arn", f.role);
    var c := OptionWords("--profile", f.profile);
    var b := OptionWords("--name", f.cluster);
    var a := OptionWords("--region", f.region);
    OptionWordsSingle("--role-arn", f.role);
    OptionWordsSingle("--profile", f.profile);
    OptionWordsSingle("--name", f.cluster);
    OptionWordsSingle("--region", f.region);
    AllSingleConcat(c, d);
    AllSingleConcat(b, c + d);
    AllSingleConcat(a, b + (c + d));
    assert AllSingle(["aws", "eks", "update-kubeconfig"]);
    AllSingleConcat(["aws", "eks", "update-kubeconfig"], a + (b + (c + d)));
  }

  // ---------------------------------------------------------------------- GKE

  function GkeExpected(f: GkeForm): Plan {
    Plan("gcloud",
         ["container", "clusters", "get-credentials", f.cluster] + OptionWords("--location", f.location)
         + OptionWords("--project", f.project) + OptionWords("--account", f.account),
         f.cluster, ["gke-gcloud-auth-plugin", "gcloud"], map[], false)
  }

  /** A cluster name gcloud's parser takes for a name. */
  predicate ClusterName(name: string) {
    name != "" && !HasPrefix(name, "-") && Literal(name) && '\U{00}' !in name
  }

  predicate GkeLiteral(f: GkeForm) {
    Literal(f.location) && Literal(f.project) && Literal(f.account)
  }

  function GkeParsed(f: GkeForm): Parsed {
    With(With(With(NOTHING.(positionals := [f.cluster]), Location, f.location), Project, f.project), Account, f.account)
  }

  /** What the parser guarantees about anything it accepts. */
  ghost predicate Clean(p: Parsed) {
    && (forall k :: k in p.values ==> p.values[k] != "" && Literal(p.values[k]))
    && (forall i :: 0 <= i < |p.positionals| ==> !HasPrefix(p.positionals[i], "-") && Literal(p.positionals[i]))
  }

  /** What the parser accepts holds no shell variable. */
  lemma NoVariables(words: seq<string>, vo: Table, fo: Table)
    requires Parse(words, vo, fo, NOTHING).Ok?
    ensures var p := Parse(words, vo, fo, NOTHING).value;
      && (forall key, i :: key in p.values && 0 <= i < |p.values[key]| ==> p.values[key][i] !in {'$', '`'})
      && (forall n, i :: 0 <= n < |p.positionals| && 0 <= i < |p.positionals[n]| ==>
            p.positionals[n][i] !in {'$', '`'})
  {
    ParseClean(words, vo, fo, NOTHING);
  }

  lemma {:induction false} ParseClean(words: seq<string>, vo: Table, fo: Table, acc: Parsed)
    requires Clean(acc) && Parse(words, vo, fo, acc).Ok?
    ensures Clean(Parse(words, vo, fo, acc).value)
    decreases |words|
  {
    if words != [] {
      var word := words[0];
      var (option, inline) := SplitOption(word);
      if option in vo {
        if inline != "" {
          ParseClean(words[1..], vo, fo, With(acc, vo[option], inline));
        } else {
          ParseClean(words[2..], vo, fo, With(acc, vo[option], words[1]));
        }
      } else if option in fo {
        ParseClean(words[1..], vo, fo, acc.(flags := acc.flags + {fo[option]}));
      } else {
        ParseClean(words[1..], vo, fo, acc.(positionals := acc.positionals + [word]));
      }
    }
  }

  predicate KnownOption(item: Item) {
    item.0 in GKE_TABLE && GKE_TABLE[item.0] == item.1 && SimpleOption(item.0) && SingleLine(item.0)
  }

  predicate KnownFlag(item: Item) {
    item.0 !in GKE_TABLE && item.0 in GKE_FLAGS && GKE_FLAGS[item.0] == item.1 && SimpleOption(item.0)
  }

  lemma GkePlaceFacts()
    ensures KnownOption(("--location", Location)) && KnownOption(("--region", Region)) && KnownOption(("--zone", Zone))
  {
  }

  lemma GkeAccountFacts()
    ensures KnownOption(("--project", Project)) && KnownOption(("--account", Account))
  {
  }

  lemma GkeIdentityFacts()
    ensures KnownOption(("--configuration", Configuration))
      && KnownOption(("--impersonate-service-account", Impersonate))
  {
  }

  lemma GkeItemFacts()
    ensures forall i :: 0 <= i < |GKE_ITEMS| ==> KnownOption(GKE_ITEMS[i])
  {
    hide KnownOption;
    GkePlaceFacts();
    GkeAccountFacts();
    GkeIdentityFacts();
  }

  lemma GkeFlagFacts()
    ensures forall i :: 0 <= i < |GKE_FLAG_ITEMS| ==> KnownFlag(GKE_FLAG_ITEMS[i])
  {
    assert KnownFlag(("--internal-ip", Internal)) && KnownFlag(("--dns-endpoint", Dns))
      && KnownFlag(("--quiet", Quiet));
  }

  lemma GkeOptionsStartWithDash(word: string)
    requires !HasPrefix(word, "-")
    ensures word !in GKE_TABLE && word !in GKE_FLAGS
  {
    forall o | o in GKE_TABLE || o in GKE_FLAGS ensures HasPrefix(o, "-") {
      assert o[0] == '-' && o[..1] == "-";
    }
  }

  lemma GkePrefix(rest: seq<string>)
    ensures Remainder(["gcloud"] + GKE_SUBCOMMANDS + rest, "gcloud", GKE_SUBCOMMANDS) == Some(rest)
  {
    var words := ["gcloud"] + GKE_SUBCOMMANDS + rest;
    assert words[1..4] == GKE_SUBCOMMANDS && words[4..] == rest;
    AfterNoSlash("gcloud");
    assert Base("gcloud") == "gcloud" && ToLower("gcloud") == "gcloud";
    assert !HasSuffix("gcloud", ".exe") by { assert "gcloud"[2..][0] == 'l'; }
  }

  lemma {:induction false} AfterNoSlash(path: string)
    requires '/' !in path
    ensures AfterLastSlash(path) == path
  {
    if path != "" { AfterNoSlash(path[..|path| - 1]); }
  }

  /** The single positional the Go code reads back from the joined text. */
  lemma {:induction false} SinglePositional(ps: seq<string>)
    ensures var name := Join(ps, "\U{00}");
      name != "" && '\U{00}' !in name <==> |ps| == 1 && ps[0] != "" && '\U{00}' !in ps[0]
  {
    if |ps| > 1 {
      assert Join(ps, "\U{00}")[|ps[0]|] == '\U{00}';
    }
  }

  // --- the fixpoint: a plan's own arguments give the plan again

  /** What parsing the option words of a plan accumulates. */
  function WithItems(items: seq<Item>, p: Parsed, acc: Parsed): Parsed {
    if items == [] then acc
    else With(WithItems(items[..|items| - 1], p, acc), items[|items| - 1].1, Value(p, items[|items| - 1].1))
  }

  function WithFlags(items: seq<Item>, p: Parsed, acc: Parsed): Parsed {
    if items == [] then acc
    else
      var before := WithFlags(items[..|items| - 1], p, acc);
      if items[|items| - 1].1 in p.flags then before.(flags := before.flags + {items[|items| - 1].1}) else before
  }

  lemma CleanValue(p: Parsed, key: Key)
    requires Clean(p)
    ensures Literal(Value(p, key))
  {
  }

  lemma {:induction false} ParseItems(items: seq<Item>, p: Parsed, rest: seq<string>, acc: Parsed)
    requires Clean(p) && forall i :: 0 <= i < |items| ==> KnownOption(items[i])
    ensures Parse(OptionArgs(items, p) + rest, GKE_TABLE, GKE_FLAGS, acc)
      == Parse(rest, GKE_TABLE, GKE_FLAGS, WithItems(items, p, acc))
  {
    hide Parse, GKE_TABLE, GKE_FLAGS, SimpleOption, SingleLine, OptionWords, With, Value, Literal;
    if items == [] {
      assert [] + rest == rest;
    } else {
      var n := |items| - 1;
      var words := OptionWords(items[n].0, Value(p, items[n].1));
      assert KnownOption(items[n]);
      ParseItems(items[..n], p, words + rest, acc);
      assert OptionArgs(items, p) + rest == OptionArgs(items[..n], p) + (words + rest);
      assert Literal(Value(p, items[n].1)) by { CleanValue(p, items[n].1); }
      ParseOption(items[n].0, Value(p, items[n].1), rest, GKE_TABLE, GKE_FLAGS, WithItems(items[..n], p, acc));
    }
  }

  lemma {:induction false} ParseFlags(items: seq<Item>, p: Parsed, rest: seq<string>, acc: Parsed)
    requires forall i :: 0 <= i < |items| ==> KnownFlag(items[i])
    ensures Parse(FlagArgs(items, p) + rest, GKE_TABLE, GKE_FLAGS, acc)
      == Parse(rest, GKE_TABLE, GKE_FLAGS, WithFlags(items, p, acc))
  {
    hide Parse, GKE_TABLE, GKE_FLAGS, SimpleOption;
    if items == [] {
      assert [] + rest == rest;
    } else {
      var n := |items| - 1;
      var words := if items[n].1 in p.flags then [items[n].0] else [];
      assert KnownFlag(items[n]);
      ParseFlags(items[..n], p, words + rest, acc);
      assert FlagArgs(items, p) + rest == FlagArgs(items[..n], p) + (words + rest);
      if items[n].1 in p.flags {
        ParseFlag(items[n].0, rest, GKE_TABLE, GKE_FLAGS, WithFlags(items[..n], p, acc));
      } else {
        assert words + rest == rest;
      }
    }
  }

  ghost predicate Mentions(items: seq<Item>, key: Key) {
    exists i :: 0 <= i < |items| && items[i].1 == key
  }

  lemma {:induction false} WithItemsValue(items: seq<Item>, p: Parsed, acc: Parsed, key: Key)
    requires forall k :: k in p.values ==> p.values[k] != ""
    requires key !in acc.values
    ensures Value(WithItems(items, p, acc), key) == if Mentions(items, key) then Value(p, key) else ""
    ensures WithItems(items, p, acc).flags == acc.flags && WithItems(items, p, acc).positionals == acc.positionals
  {
    if items != [] {
      var n := |items| - 1;
      WithItemsValue(items[..n], p, acc, key);
      assert Mentions(items, key) <==> Mentions(items[..n], key) || items[n].1 == key by {
        assert forall i :: 0 <= i < n ==> items[..n][i] == items[i];
      }
    }
  }

  lemma {:induction false} WithFlagsFlag(items: seq<Item>, p: Parsed, acc: Parsed, key: Key)
    ensures key in WithFlags(items, p, acc).flags <==> key in acc.flags || (Mentions(items, key) && key in p.flags)
    ensures WithFlags(items, p, acc).values == acc.values && WithFlags(items, p, acc).positionals == acc.positionals
  {
    if items != [] {
      var n := |items| - 1;
      WithFlagsFlag(items[..n], p, acc, key);
      assert Mentions(items, key) <==> Mentions(items[..n], key) || items[n].1 == key by {
        assert forall i :: 0 <= i < n ==> items[..n][i] == items[i];
      }
    }
  }

  lemma {:induction false} SameOptionArgs(items: seq<Item>, p: Parsed, q: Parsed)
    requires forall i :: 0 <= i < |items| ==> Value(p, items[i].1) == Value(q, items[i].1)
    ensures OptionArgs(items, p) == OptionArgs(items, q)
  {
    if items != [] { SameOptionArgs(items[..|items| - 1], p, q); }
  }

  lemma {:induction false} SameFlagArgs(items: seq<Item>, p: Parsed, q: Parsed)
    requires forall i :: 0 <= i < |items| ==> (items[i].1 in p.flags <==> items[i].1 in q.flags)
    ensures FlagArgs(items, p) == FlagArgs(items, q)
  {
    if items != [] { SameFlagArgs(items[..|items| - 1], p, q); }
  }

  /** What the words of a plan parse to. */
  function Reparsed(name: string, p: Parsed): Parsed {
    WithFlags(GKE_FLAG_ITEMS, p, WithItems(GKE_ITEMS, p, NOTHING.(positionals := [name])))
  }

  lemma ReparsePlan(name: string, p: Parsed)
    requires Clean(p) && ClusterName(name)
    ensures Parse([name] + OptionArgs(GKE_ITEMS, p) + FlagArgs(GKE_FLAG_ITEMS, p), GKE_TABLE, GKE_FLAGS, NOTHING)
      == Ok(Reparsed(name, p))
  {
    hide OptionArgs, FlagArgs, KnownOption, KnownFlag, Clean, GKE_ITEMS, GKE_FLAG_ITEMS;
    GkeItemFacts();
    GkeFlagFacts();
    GkeOptionsStartWithDash(name);
    var flags := FlagArgs(GKE_FLAG_ITEMS, p);
    var options := OptionArgs(GKE_ITEMS, p);
    var acc := NOTHING.(positionals := [name]);
    assert NOTHING.positionals + [name] == [name];
    ParsePositional(name, options + flags, GKE_TABLE, GKE_FLAGS, NOTHING);
    assert [name] + options + flags == [name] + (options + flags);
    ParseItems(GKE_ITEMS, p, flags, acc);
    ParseFlags(GKE_FLAG_ITEMS, p, [], WithItems(GKE_ITEMS, p, acc));
    assert flags + [] == flags;
  }

  lemma ReparsedSame(name: string, p: Parsed)
    requires Clean(p) && ClusterName(name)
    ensures GkePlanOf(Reparsed(name, p)) == Ok(GkePlanFor(name, p))
  {
    hide WithItems, WithFlags, OptionArgs, FlagArgs, Literal;
    var acc := NOTHING.(positionals := [name]);
    var q := Reparsed(name, p);
    forall i | 0 <= i < |GKE_ITEMS| ensures Value(q, GKE_ITEMS[i].1) == Value(p, GKE_ITEMS[i].1) {
      WithItemsValue(GKE_ITEMS, p, acc, GKE_ITEMS[i].1);
      WithFlagsFlag(GKE_FLAG_ITEMS, p, WithItems(GKE_ITEMS, p, acc), GKE_ITEMS[i].1);
    }
    forall i | 0 <= i < |GKE_FLAG_ITEMS| ensures GKE_FLAG_ITEMS[i].1 in q.flags <==> GKE_FLAG_ITEMS[i].1 in p.flags {
      WithItemsValue(GKE_ITEMS, p, acc, Name);
      WithFlagsFlag(GKE_FLAG_ITEMS, p, WithItems(GKE_ITEMS, p, acc), GKE_FLAG_ITEMS[i].1);
    }
    WithItemsValue(GKE_ITEMS, p, acc, Name);
    WithFlagsFlag(GKE_FLAG_ITEMS, p, WithItems(GKE_ITEMS, p, acc), Name);
    SameOptionArgs(GKE_ITEMS, p, q);
    SameFlagArgs(GKE_FLAG_ITEMS, p, q);
    SinglePositional(q.positionals);
    assert Positionals(q) == name;
  }

  /** For every accepted command, running buildGKECommand on the plan's own
      words gives the same plan. */
  lemma GkePlanFixpoint(words: seq<string>)
    requires GkePlan(words).Ok?
    ensures var plan := GkePlan(words).value; GkePlan([plan.executable] + plan.args) == Ok(plan)
  {
    var plan := GkePlan(words).value;
    var rest := Remainder(words, "gcloud", GKE_SUBCOMMANDS).value;
    var p := Parse(rest, GKE_TABLE, GKE_FLAGS, NOTHING).value;
    var name := plan.name;
    ParseClean(rest, GKE_TABLE, GKE_FLAGS, NOTHING);
    SinglePositional(p.positionals);
    assert ClusterName(name);
    ReparseWords(name, p);
  }

  lemma ReparseWords(name: string, p: Parsed)
    requires Clean(p) && ClusterName(name)
    ensures GkePlan(["gcloud"] + GkePlanFor(name, p).args) == Ok(GkePlanFor(name, p))
  {
    hide OptionArgs, FlagArgs, Remainder, Parse, GKE_ITEMS, GKE_FLAG_ITEMS, GKE_TABLE, GKE_FLAGS, Clean, Reparsed,
        GkePlanOf;
    var own := [name] + OptionArgs(GKE_ITEMS, p) + FlagArgs(GKE_FLAG_ITEMS, p);
    assert ["gcloud"] + GkePlanFor(name, p).args == ["gcloud"] + GKE_SUBCOMMANDS + own;
    GkePrefix(own);
    ReparsePlan(name, p);
    ReparsedSame(name, p);
  }

  // --- the GKE form

  lemma GkeOptionFacts()
    ensures "--location" in GKE_TABLE && GKE_TABLE["--location"] == Location
      && SimpleOption("--location") && SingleLine("--location")
    ensures "--project" in GKE_TABLE && GKE_TABLE["--project"] == Project
      && SimpleOption("--project") && SingleLine("--project")
    ensures "--account" in GKE_TABLE && GKE_TABLE["--account"] == Account
      && SimpleOption("--account") && SingleLine("--account")
  {
    hide GKE_TABLE, SimpleOption, SingleLine;
    GkePlaceFacts();
    GkeAccountFacts();
  }

  function GkeFormOptions(f: GkeForm): seq<string> {
    OptionWords("--location", f.location) + (OptionWords("--project", f.project) + OptionWords("--account", f.account))
  }

  lemma GkeParseOptions(f: GkeForm, acc: Parsed)
    ensures var r := Parse(GkeFormOptions(f), GKE_TABLE, GKE_FLAGS, acc);
      if !GkeLiteral(f) then r.Err?
      else r == Ok(With(With(With(acc, Location, f.location), Project, f.project), Account, f.account))
  {
    hide OptionWords, Literal, With, SimpleOption, GKE_TABLE, GKE_FLAGS;
    GkeOptionFacts();
    var c := OptionWords("--account", f.account);
    var b := OptionWords("--project", f.project) + c;
    var p1 := With(acc, Location, f.location);
    ParseOption("--location", f.location, b, GKE_TABLE, GKE_FLAGS, acc);
    ParseOption("--project", f.project, c, GKE_TABLE, GKE_FLAGS, p1);
    ParseOption("--account", f.account, [], GKE_TABLE, GKE_FLAGS, With(p1, Project, f.project));
    assert c + [] == c;
  }

  lemma GkeParsedValues(f: GkeForm)
    ensures var p := GkeParsed(f);
      && Value(p, Location) == f.location && Value(p, Project) == f.project && Value(p, Account) == f.account
      && Value(p, Region) == "" && Value(p, Zone) == "" && Value(p, Configuration) == "" && Value(p, Impersonate) == ""
      && p.flags == {} && p.positionals == [f.cluster]
  {
  }

  lemma NoFlags(items: seq<Item>, p: Parsed)
    requires p.flags == {}
    ensures FlagArgs(items, p) == []
  {
    if items != [] { NoFlags(items[..|items| - 1], p); }
  }

  lemma SevenOptions(p: Parsed)
    ensures OptionArgs(GKE_ITEMS, p)
      == OptionWords("--location", Value(p, Location)) + OptionWords("--region", Value(p, Region))
      + OptionWords("--zone", Value(p, Zone)) + OptionWords("--project", Value(p, Project))
      + OptionWords("--account", Value(p, Account))
      + OptionWords("--configuration", Value(p, Configuration))
      + OptionWords("--impersonate-service-account", Value(p, Impersonate))
  {
    hide OptionArgs, OptionWords, Value;
    var two: seq<Item> := [("--location", Location), ("--region", Region)];
    var three := two + [("--zone", Zone)];
    var four := three + [("--project", Project)];
    var five := four + [("--account", Account)];
    var six := five + [("--configuration", Configuration)];
    TwoOptions(("--location", Location), ("--region", Region), p);
    OneMoreOption(two, ("--zone", Zone), p);
    OneMoreOption(three, ("--project", Project), p);
    OneMoreOption(four, ("--account", Account), p);
    OneMoreOption(five, ("--configuration", Configuration), p);
    OneMoreOption(six, ("--impersonate-service-account", Impersonate), p);
    assert GKE_ITEMS == six + [("--impersonate-service-account", Impersonate)];
  }

  lemma GkeParsedPlan(f: GkeForm)
    requires f.cluster != ""
    ensures GkePlanOf(GkeParsed(f)) == if '\U{00}' in f.cluster then Err(MissingName) else Ok(GkeExpected(f))
  {
    hide OptionArgs, FlagArgs, Value, With, GKE_ITEMS, GKE_FLAG_ITEMS;
    var p := GkeParsed(f);
    GkeParsedValues(f);
    SevenOptions(p);
    NoFlags(GKE_FLAG_ITEMS, p);
    assert Positionals(p) == f.cluster;
    assert OptionWords("--region", "") == [] && OptionWords("--zone", "") == [];
    assert GkePlanFor(f.cluster, p).args == GkeExpected(f).args;
  }

  lemma GkeWordsSingle(f: GkeForm)
    requires SingleLine(f.cluster) && SingleLine(f.location) && SingleLine(f.project) && SingleLine(f.account)
    ensures AllSingle(GkeFormWords(f))
  {
    hide SimpleOption, OptionWords;
    GkeOptionFacts();
    OptionWordsSingle("--location", f.location);
    OptionWordsSingle("--project", f.project);
    OptionWordsSingle("--account", f.account);
    AllSingleConcat(OptionWords("--project", f.project), OptionWords("--account", f.account));
    AllSingleConcat(OptionWords("--location", f.location),
                    OptionWords("--project", f.project) + OptionWords("--account", f.account));
    if f.cluster != "" {
      assert AllSingle(["gcloud", "container", "clusters", "get-credentials", f.cluster]);
      AllSingleConcat(["gcloud", "container", "clusters", "get-credentials", f.cluster], GkeFormOptions(f));
    }
  }

  /** The GKE form reaches the command line unchanged exactly when the cluster
      name can be one and the fields are literals. */
  lemma GkeFormToPlan(f: GkeForm)
    requires SingleLine(f.cluster) && SingleLine(f.location) && SingleLine(f.project) && SingleLine(f.account)
    ensures GkeImport(QuotedCommand(GkeFormWords(f))) == Ok(GkeExpected(f))
      <==> ClusterName(f.cluster) && GkeLiteral(f)
  {
    var words := GkeFormWords(f);
    GkeWordsSingle(f);
    if f.cluster == "" {
      QuoteLexInverse(words);
    } else {
      SingleLex(words);
      var own := [f.cluster] + GkeFormOptions(f);
      assert words == ["gcloud"] + GKE_SUBCOMMANDS + own;
      GkePrefix(own);
      GkeParseForm(f);
    }
  }

  lemma GkeParseForm(f: GkeForm)
    requires f.cluster != ""
    ensures var r := Parse([f.cluster] + GkeFormOptions(f), GKE_TABLE, GKE_FLAGS, NOTHING);
      (r.Ok? && GkePlanOf(r.value) == Ok(GkeExpected(f))) <==> ClusterName(f.cluster) && GkeLiteral(f)
  {
    hide GKE_TABLE, GKE_FLAGS, GkeFormOptions, GkePlanFor;
    var own := [f.cluster] + GkeFormOptions(f);
    var r := Parse(own, GKE_TABLE, GKE_FLAGS, NOTHING);
    if HasPrefix(f.cluster, "-") {
      if r.Ok? {
        ParseClean(own, GKE_TABLE, GKE_FLAGS, NOTHING);
        SinglePositional(r.value.positionals);
        if GkePlanOf(r.value).Ok? { GkePlanName(r.value); }
      }
    } else {
      GkeOptionsStartWithDash(f.cluster);
      ParsePositional(f.cluster, GkeFormOptions(f), GKE_TABLE, GKE_FLAGS, NOTHING);
      assert NOTHING.positionals + [f.cluster] == [f.cluster];
      GkeParseOptions(f, NOTHING.(positionals := [f.cluster]));
      GkeParsedPlan(f);
    }
  }

  lemma GkePlanName(p: Parsed)
    requires GkePlanOf(p).Ok?
    ensures GkePlanOf(p).value.name == Positionals(p)
  {
  }
}
