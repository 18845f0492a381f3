/**
  * The entry point of `main.py`: the interactive questions that gather the
  * url and payload lists, the thread count, the output file and (for the
  * SQL injection scanner only) a cookie; the menu and `--scanner` routing to
  * one of the four scanners or the updater; and the argument mode, where
  * `--url-file` and `--payload-file` replace the `--urls` and `--payloads`
  * lists before routing.
  */
module Frontend {
  import opened Wrappers
  import opened Text
  import opened LibsCommon

  // ---------------------------------------------------------------- lists

  /** `os.path.isfile(path)`: `files` maps a regular file's path to its lines; the empty path is never a file. */
  predicate IsFile(files: string -> Option<seq<string>>, path: string) {
    path != [] && files(path).Some?
  }

  /** `[x.strip() for x in answer.split(',') if x.strip()]`. */
  function CommaList(answer: string): (r: seq<string>)
    ensures forall k :: 0 <= k < |r| ==> r[k] != [] && IsStripped(r[k]) && ',' !in r[k]
  {
    var pieces := Split(answer, ',');
    NonBlankFrom(pieces, ',');
    NonBlank(pieces)
  }

  /** What `NonBlank` keeps is the stripped form of some piece, so it has no character the pieces lack. */
  lemma NonBlankFrom(pieces: seq<string>, c: char)
    requires forall k :: 0 <= k < |pieces| ==> c !in pieces[k]
    ensures forall k :: 0 <= k < |NonBlank(pieces)| ==> c !in NonBlank(pieces)[k]
  {
    var r := NonBlank(pieces);
    forall k | 0 <= k < |r|
      ensures c !in r[k]
    {
      assert r[k] in r;
      NonBlankMembers(pieces, r[k]);
      StripEachKeeps(pieces, c);
    }
  }

  /** An item is listed exactly when it is a comma-separated piece of the answer, stripped, and not empty. */
  lemma CommaListMembers(answer: string, s: string)
    ensures s in CommaList(answer) <==> s != [] && s in StripEach(Split(answer, ','))
  {
    var pieces := Split(answer, ',');
    assert CommaList(answer) == NonBlank(pieces);
    NonBlankMembers(pieces, s);
  }

  /** Items typed without blanks and commas, joined by commas, come back as typed and in order. */
  lemma CommaListOfJoin(items: seq<string>)
    requires |items| >= 1
    requires forall k :: 0 <= k < |items| ==> items[k] != [] && IsStripped(items[k]) && ',' !in items[k]
    ensures CommaList(Join(items, ',')) == items
  {
    SplitJoin(items, ',');
    NonBlankKeeps(items);
  }

  /** The url or payload answer: the non-blank lines of the file it names, else a comma-separated list. */
  function ListAnswer(answer: string, files: string -> Option<seq<string>>): (r: seq<string>)
    ensures forall k :: 0 <= k < |r| ==> r[k] != [] && IsStripped(r[k])
  {
    var a := Strip(answer);
    if IsFile(files, a) then NonBlank(files(a).value) else CommaList(a)
  }

  // ---------------------------------------------------------------- prompts

  /** The five answers typed at the prompts, before stripping; `cookie` is asked for only by the SQL scanner. */
  datatype Answers = Answers(urls: string, payloads: string, threads: string, outputFile: string, cookie: string)

  /** What a scanner is started with: `urls` and `payloads` are `None` in argument mode when neither list nor file was given. */
  datatype Inputs = Inputs(urls: Option<seq<string>>, payloads: Option<seq<string>>, threads: int,
                           outputFile: Option<string>, cookie: Option<string>)

  /** `answer.strip() or None`. */
  function Optional(answer: string): (r: Option<string>)
    ensures r.None? <==> AllSpace(answer)
    ensures r.Some? ==> IsStripped(r.value)
  {
    var a := Strip(answer);
    StripBlank(answer);
    StripEmpty(answer);
    if a == [] then None else Some(a)
  }

  /**
    * `prompt_for_inputs(scanner_name)`: `None` when the thread answer is
    * neither blank nor a number, where `int()` raises `ValueError` and
    * nothing catches it.
    */
  function PromptForInputs(scannerName: string, answers: Answers, files: string -> Option<seq<string>>): (r: Option<Inputs>)
    ensures r.Some? <==> Strip(answers.threads) == [] || ParseInt(Strip(answers.threads)).Some?
    ensures r.Some? ==> r.value.urls == Some(ListAnswer(answers.urls, files))
    ensures r.Some? ==> r.value.payloads == Some(ListAnswer(answers.payloads, files))
    ensures r.Some? && AllSpace(answers.threads) ==> r.value.threads == 5
    ensures r.Some? && IsDigits(Strip(answers.threads)) ==> r.value.threads == DigitsValue(Strip(answers.threads))
    ensures r.Some? ==> r.value.outputFile == Optional(answers.outputFile)
    ensures r.Some? && scannerName != "sqli" ==> r.value.cookie == None
    ensures r.Some? && scannerName == "sqli" ==> r.value.cookie == Optional(answers.cookie)
  {
    StripBlank(answers.threads);
    var urls := ListAnswer(answers.urls, files);
    var payloads := ListAnswer(answers.payloads, files);
    var t := Strip(answers.threads);
    var threads := if t == [] then Some(5) else ParseInt(t);
    match threads
    case None => None
    case Some(n) =>
      var cookie := if scannerName == "sqli" then Optional(answers.cookie) else None;
      Some(Inputs(Some(urls), Some(payloads), n, Optional(answers.outputFile), cookie))
  }

  // ---------------------------------------------------------------- routing

  /** The four scanners `main.py` starts, each by the name `--scanner` and the prompts use for it. */
  datatype Kind = Lfi | Redirect | Sqli | Xss {
    function Name(): string {
      match this
      case Lfi => "lfi"
      case Redirect => "or"
      case Sqli => "sqli"
      case Xss => "xss"
    }
  }

  /** Where a selection leads. */
  datatype Target = ScanWith(kind: Kind) | Update | Exit

  /** A branch of `handle_selection`: its menu number, its `--scanner` name and where it leads. */
  datatype Branch = Branch(code: string, name: string, target: Target)

  /** The branches in the order they are tested. */
  const Branches: seq<Branch> := [
    Branch("1", "lfi", ScanWith(Lfi)),
    Branch("2", "or", ScanWith(Redirect)),
    Branch("3", "sqli", ScanWith(Sqli)),
    Branch("4", "xss", ScanWith(Xss)),
    Branch("5", "update", Update)
  ]

  /** `selection == code or (args and args.scanner == name)`. */
  predicate Matches(b: Branch, selection: Option<string>, scanner: Option<string>) {
    selection == Some(b.code) || scanner == Some(b.name)
  }

  /** The target of the first of `bs[i..]` that matches, `Exit` when none does (option `6` and anything else). */
  function FirstMatch(bs: seq<Branch>, i: nat, selection: Option<string>, scanner: Option<string>): (t: Target)
    requires i <= |bs|
    decreases |bs| - i
  {
    if i == |bs| then Exit
    else if Matches(bs[i], selection, scanner) then bs[i].target
    else FirstMatch(bs, i + 1, selection, scanner)
  }

  /** `handle_selection`'s choice of branch: `scanner` is `args.scanner` in argument mode and `None` at the menu. */
  function Route(selection: Option<string>, scanner: Option<string>): Target {
    FirstMatch(Branches, 0, selection, scanner)
  }

  /** The branch whose test holds first decides, and no selection that matches nothing starts anything. */
  lemma {:induction false} FirstMatchWins(bs: seq<Branch>, i: nat, j: nat, selection: Option<string>, scanner: Option<string>)
    requires i <= j < |bs|
    requires Matches(bs[j], selection, scanner)
    requires forall m :: i <= m < j ==> !Matches(bs[m], selection, scanner)
    ensures FirstMatch(bs, i, selection, scanner) == bs[j].target
    decreases j - i
  {
    if i < j {
      FirstMatchWins(bs, i + 1, j, selection, scanner);
    }
  }

  /** With no branch matching, the selection leads to the exit. */
  lemma {:induction false} NoMatchExits(bs: seq<Branch>, i: nat, selection: Option<string>, scanner: Option<string>)
    requires i <= |bs|
    requires forall m :: i <= m < |bs| ==> !Matches(bs[m], selection, scanner)
    ensures FirstMatch(bs, i, selection, scanner) == Exit
    decreases |bs| - i
  {
    if i < |bs| {
      NoMatchExits(bs, i + 1, selection, scanner);
    }
  }

  /** At the menu, `1` to `5` pick their scanner or the updater, and every other answer exits. */
  lemma MenuRoutes(choice: string)
    ensures forall j :: 0 <= j < |Branches| && choice == Branches[j].code ==> Route(Some(choice), None) == Branches[j].target
    ensures (forall j :: 0 <= j < |Branches| ==> choice != Branches[j].code) ==> Route(Some(choice), None) == Exit
  {
    forall j | 0 <= j < |Branches| && choice == Branches[j].code
      ensures Route(Some(choice), None) == Branches[j].target
    {
      FirstMatchWins(Branches, 0, j, Some(choice), None);
    }
    if forall j :: 0 <= j < |Branches| ==> choice != Branches[j].code {
      NoMatchExits(Branches, 0, Some(choice), None);
    }
  }

  /** In argument mode each `--scanner` choice picks its own branch, and no choice exits. */
  lemma ArgumentRoutes(scanner: Option<string>)
    ensures forall k: Kind :: scanner == Some(k.Name()) ==> Route(None, scanner) == ScanWith(k)
    ensures scanner == Some("update") ==> Route(None, scanner) == Update
    ensures scanner.None? ==> Route(None, scanner) == Exit
  {
    if scanner == Some("lfi") {
      FirstMatchWins(Branches, 0, 0, None, scanner);
    } else if scanner == Some("or") {
      FirstMatchWins(Branches, 0, 1, None, scanner);
    } else if scanner == Some("sqli") {
      FirstMatchWins(Branches, 0, 2, None, scanner);
    } else if scanner == Some("xss") {
      FirstMatchWins(Branches, 0, 3, None, scanner);
    } else if scanner == Some("update") {
      FirstMatchWins(Branches, 0, 4, None, scanner);
    } else if scanner.None? {
      NoMatchExits(Branches, 0, None, scanner);
    }
  }

  // ---------------------------------------------------------------- dispatch

  /** The parsed command line after the file lists have been read. */
  datatype CliArgs = CliArgs(scanner: Option<string>, urls: Option<seq<string>>, payloads: Option<seq<string>>,
                             cookie: Option<string>, threads: int, outputFile: Option<string>)

  /** The menu with the answer typed at it, or the command line. */
  datatype Mode = Interactive(selection: string, answers: Answers) | Arguments(args: CliArgs)

  /** What `handle_selection` ends in. */
  datatype Action = Launch(kind: Kind, inputs: Inputs) | RunUpdate | Quit | Crash

  /** `args.threads or 5`. */
  function OrFive(threads: int): (r: int)
    ensures r != 0
    ensures threads != 0 ==> r == threads
  {
    if threads == 0 then 5 else threads
  }

  /** `handle_selection(selection, args)`: the branch `Route` picks, carried out by `Dispatch`. */
  function HandleSelection(mode: Mode, files: string -> Option<seq<string>>): Action {
    Dispatch(Route(Selection(mode), Scanner(mode)), mode, files)
  }

  /** What branch `t` of `handle_selection` does, at the menu or from the command line. */
  function Dispatch(t: Target, mode: Mode, files: string -> Option<seq<string>>): Action {
    match mode
    case Interactive(_, answers) => DispatchPrompted(t, answers, files)
    case Arguments(args) => DispatchArguments(t, args)
  }

  /**
    * Branch `t` at the menu: a scanner is started with the prompted inputs,
    * and a thread answer `int()` rejects crashes the program.
    */
  function DispatchPrompted(t: Target, answers: Answers, files: string -> Option<seq<string>>): (r: Action)
    ensures r.Launch? ==> t == ScanWith(r.kind) && Some(r.inputs) == PromptForInputs(r.kind.Name(), answers, files)
    ensures t == Update <==> r.RunUpdate?
    ensures t == Exit <==> r.Quit?
    ensures r.Crash? <==> t.ScanWith? && PromptForInputs(t.kind.Name(), answers, files).None?
  {
    match t
    case Exit => Quit
    case Update => RunUpdate
    case ScanWith(kind) =>
      match PromptForInputs(kind.Name(), answers, files)
      case None => Crash
      case Some(inputs) => Launch(kind, inputs)
  }

  /**
    * Branch `t` in argument mode: a scanner is started with the command
    * line's lists, output file and thread count (zero becoming 5), and only
    * the SQL scanner is given the cookie; nothing here crashes.
    */
  function DispatchArguments(t: Target, args: CliArgs): (r: Action)
    ensures r.Launch? <==> t.ScanWith?
    ensures r.Launch? ==> t == ScanWith(r.kind)
    ensures t == Update <==> r.RunUpdate?
    ensures t == Exit <==> r.Quit?
    ensures r.Launch? ==> r.inputs.threads == OrFive(args.threads)
    ensures r.Launch? ==> r.inputs.urls == args.urls && r.inputs.payloads == args.payloads && r.inputs.outputFile == args.outputFile
    ensures r.Launch? ==> r.inputs.cookie == if r.kind == Sqli then args.cookie else None
  {
    match t
    case Exit => Quit
    case Update => RunUpdate
    case ScanWith(kind) =>
      Launch(kind, Inputs(args.urls, args.payloads, OrFive(args.threads), args.outputFile,
                          if kind == Sqli then args.cookie else None))
  }

  /** The menu answer, none in argument mode. */
  function Selection(mode: Mode): Option<string> {
    if mode.Interactive? then Some(mode.selection) else None
  }

  /** `args.scanner` in argument mode, none at the menu (where `args` is `None`). */
  function Scanner(mode: Mode): Option<string> {
    if mode.Arguments? then mode.args.scanner else None
  }

  // ---------------------------------------------------------------- argument mode

  /** `path` is given and not empty. */
  predicate Truthy(path: Option<string>) {
    path.Some? && path.value != []
  }

  /**
    * A list option after its file option: the non-blank lines of the file
    * when one is named, `Err(1)` (`sys.exit(1)`) when it is not a file, and
    * the list as given when no file is named.
    */
  function FileOverride(current: Option<seq<string>>, path: Option<string>, files: string -> Option<seq<string>>)
    : (r: Result<Option<seq<string>>, int>)
    ensures !Truthy(path) ==> r == Ok(current)
    ensures Truthy(path) && !IsFile(files, path.value) ==> r == Err(1)
    ensures Truthy(path) && IsFile(files, path.value) ==> r.Ok? && r.value.Some?
    ensures Truthy(path) && IsFile(files, path.value) ==>
      forall k :: 0 <= k < |r.value.value| ==> r.value.value[k] != [] && IsStripped(r.value.value[k])
  {
    if Truthy(path) then
      if IsFile(files, path.value) then Ok(Some(NonBlank(files(path.value).value))) else Err(1)
    else Ok(current)
  }

  /** A file named on the command line wins over the list given beside it: whatever that list is, the outcome is the same. */
  lemma FileWins(c1: Option<seq<string>>, c2: Option<seq<string>>, path: Option<string>, files: string -> Option<seq<string>>)
    requires Truthy(path)
    ensures FileOverride(c1, path, files) == FileOverride(c2, path, files)
  {
  }

  /** `args` as `argparse` leaves it; `main` overwrites `urls` and `payloads` in place. */
  class Namespace {
    var scanner: Option<string>
    var urls: Option<seq<string>>
    var urlFile: Option<string>
    var payloads: Option<seq<string>>
    var payloadFile: Option<string>
    var cookie: Option<string>
    var threads: int
    var outputFile: Option<string>

    constructor (scanner: Option<string>, urls: Option<seq<string>>, urlFile: Option<string>,
                 payloads: Option<seq<string>>, payloadFile: Option<string>, cookie: Option<string>,
                 threads: int, outputFile: Option<string>)
      ensures this.scanner == scanner && this.urls == urls && this.urlFile == urlFile
      ensures this.payloads == payloads && this.payloadFile == payloadFile && this.cookie == cookie
      ensures this.threads == threads && this.outputFile == outputFile
    {
      this.scanner, this.urls, this.urlFile := scanner, urls, urlFile;
      this.payloads, this.payloadFile, this.cookie := payloads, payloadFile, cookie;
      this.threads, this.outputFile := threads, outputFile;
    }

    /** What `handle_selection` reads of `args`. */
    function Args(): CliArgs
      reads this
    {
      CliArgs(scanner, urls, payloads, cookie, threads, outputFile)
    }

    /**
      * The file step of `main`: the url file replaces `urls`, then the
      * payload file replaces `payloads`; a path that is not a file stops the
      * program with status 1 before anything later is read.
      */
    method LoadFiles(files: string -> Option<seq<string>>) returns (exitStatus: Option<int>)
      modifies this
      ensures var u := FileOverride(old(urls), urlFile, files);
        var p := FileOverride(old(payloads), payloadFile, files);
        if u.Err? then exitStatus == Some(1) && urls == old(urls) && payloads == old(payloads)
        else if p.Err? then exitStatus == Some(1) && urls == u.value && payloads == old(payloads)
        else exitStatus == None && urls == u.value && payloads == p.value
      ensures scanner == old(scanner) && urlFile == old(urlFile) && payloadFile == old(payloadFile)
      ensures cookie == old(cookie) && threads == old(threads) && outputFile == old(outputFile)
    {
      if Truthy(urlFile) {
        if IsFile(files, urlFile.value) {
          urls := Some(NonBlank(files(urlFile.value).value));
        } else {
          return Some(1);
        }
      }
      if Truthy(payloadFile) {
        if IsFile(files, payloadFile.value) {
          payloads := Some(NonBlank(files(payloadFile.value).value));
        } else {
          return Some(1);
        }
      }
      return None;
    }
  }

  /** How argument mode ends. */
  datatype Outcome = Exited(status: int) | Dispatched(action: Action)

  /** `main` when arguments are given: read the file options, then `handle_selection(None, args)`. */
  method RunArguments(args: Namespace, files: string -> Option<seq<string>>) returns (o: Outcome)
    modifies args
    ensures var u := FileOverride(old(args.urls), old(args.urlFile), files);
      var p := FileOverride(old(args.payloads), old(args.payloadFile), files);
      if u.Err? || p.Err? then o == Exited(1)
      else o == Dispatched(HandleSelection(Arguments(old(args.Args()).(urls := u.value, payloads := p.value)), files))
  {
    var exitStatus := args.LoadFiles(files);
    if exitStatus.Some? {
      return Exited(exitStatus.value);
    }
    o := Dispatched(HandleSelection(Arguments(args.Args()), files));
  }
}
