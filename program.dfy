/**
 * The entry point (`src/main.rs`): reading the URL list, the pre-flight
 * checks and the hand-over to the submission queue.
 *
 * The filesystem, standard input and the process environment are inputs:
 * `files` maps the paths that can be read to their text, `stdin` is what
 * reading standard input yields, and `env` is the environment as it stands
 * after the optional dotfile has been loaded.
 */
module Program {
  import opened Wrappers
  import Text
  import Arguments
  import Network

  /** The environment variables the keys fall back to. */
  const ApiAccessKey: string := "API_ACCESS_KEY"
  const ApiSecretKey: string := "API_SECRET_KEY"

  /** Why reading the input failed: a named file that cannot be read as text, or standard input failing. */
  datatype IoError = Unreadable(path: string) | InvalidData

  // ---------------------------------------------------------------------
  // Reading the URL list
  // ---------------------------------------------------------------------

  /**
   * The `filter_map` of `read`: keep each line whose trimmed form is
   * non-empty, as it was, untrimmed. `trim().is_empty()` is tested as
   * `IsBlank`, which `Text.TrimEmptyIffBlank` proves to be the same test
   * (and `KeepCons` states the step in terms of `Trim`).
   */
  function KeepNonBlank(lines: seq<string>): (kept: seq<string>)
    ensures |kept| <= |lines|
    ensures forall i | 0 <= i < |kept| :: !Text.IsBlank(kept[i])
  {
    if lines == [] then []
    else
      var rest := KeepNonBlank(lines[1..]);
      if !Text.IsBlank(lines[0]) then [lines[0]] + rest else rest
  }

  /** Keeping commutes with concatenation, so the kept lines stay in input order. */
  lemma {:induction false} KeepNonBlankAppend(a: seq<string>, b: seq<string>)
    ensures KeepNonBlank(a + b) == KeepNonBlank(a) + KeepNonBlank(b)
  {
    if a == [] {
      assert a + b == b;
    } else {
      assert (a + b)[1..] == a[1..] + b;
      KeepNonBlankAppend(a[1..], b);
    }
  }

  /** A line is kept exactly when it occurs in the input and is not blank: nothing with a visible character is dropped. */
  lemma {:induction false} KeepNonBlankMembers(lines: seq<string>, x: string)
    ensures x in KeepNonBlank(lines) <==> x in lines && !Text.IsBlank(x)
  {
    if lines != [] {
      KeepNonBlankMembers(lines[1..], x);
      assert lines == [lines[0]] + lines[1..];
      KeepCons(lines[0], lines[1..]);
    }
  }

  /** `buffer.split('\n')` followed by the filter: the URL list a buffer yields. */
  function ReadLines(buffer: string): (lines: seq<string>)
    ensures forall i | 0 <= i < |lines| :: '\n' !in lines[i] && !Text.IsBlank(lines[i])
  {
    var pieces := Text.Split(buffer, '\n');
    var kept := KeepNonBlank(pieces);
    assert forall i | 0 <= i < |kept| :: kept[i] in pieces by {
      forall i | 0 <= i < |kept| ensures kept[i] in pieces {
        KeepNonBlankMembers(pieces, kept[i]);
      }
    }
    kept
  }

  /**
   * The list read from text made of `lines` is exactly the non-blank ones,
   * in their order and untrimmed (leading spaces or a trailing '\r' stay).
   */
  lemma ReadLinesOfLines(lines: seq<string>)
    requires |lines| >= 1
    requires forall i | 0 <= i < |lines| :: '\n' !in lines[i]
    ensures ReadLines(Text.Join(lines, '\n')) == KeepNonBlank(lines)
  {
    Text.SplitJoin(lines, '\n');
  }

  /**
   * A line of a file with CRLF line endings keeps its '\r': the URL list
   * of `u + "\r\n"` is `[u + "\r"]`, not `[u]`.
   */
  lemma CarriageReturnKept(u: string)
    requires '\n' !in u && !Text.IsBlank(u)
    ensures ReadLines(u + "\r\n") == [u + "\r"]
  {
    var line := u + "\r";
    assert !Text.IsBlank(line) by {
      var i :| 0 <= i < |u| && !Text.IsWhitespace(u[i]);
      assert line[i] == u[i];
    }
    assert '\n' !in line by {
      assert forall i | 0 <= i < |line| :: line[i] == if i < |u| then u[i] else '\r';
    }
    var text := line + "\n";
    assert text == u + "\r\n";
    JoinTerminated(line);
    ReadLinesOfLines([line, ""]);
    KeepBeforeEmpty(line);
    assert ReadLines(text) == [line];
  }

  /** Text ending in a line break is the join of its line and an empty last piece. */
  lemma JoinTerminated(line: string)
    ensures Text.Join([line, ""], '\n') == line + "\n"
  {
    assert [line, ""][1..] == [""];
  }

  /** A trailing empty piece is dropped, the line before it kept. */
  lemma KeepBeforeEmpty(line: string)
    requires !Text.IsBlank(line)
    ensures KeepNonBlank([line, ""]) == [line]
  {
    var empty: seq<string> := [];
    KeepCons("", empty);
    KeepCons(line, [""] + empty);
    assert [line, ""] == [line] + ([""] + empty);
  }

  /** One step of the filter: the head line is kept exactly when its trimmed form is non-empty, that is, when it is not blank. */
  lemma KeepCons(x: string, rest: seq<string>)
    ensures KeepNonBlank([x] + rest) == (if Text.IsBlank(x) then [] else [x]) + KeepNonBlank(rest)
    ensures KeepNonBlank([x] + rest) == (if Text.Trim(x) == [] then [] else [x]) + KeepNonBlank(rest)
  {
    Text.TrimEmptyIffBlank(x);
    assert ([x] + rest)[1..] == rest;
  }

  /** `read`: the named file if there is one, standard input otherwise; both go through the same split and filter. */
  function Read(path: Option<string>, files: map<string, string>, stdin: Result<string, IoError>): (r: Result<seq<string>, IoError>)
    ensures path.Some? && path.value !in files ==> r == Failure(Unreadable(path.value))
    ensures path.None? && stdin.Failure? ==> r == Failure(stdin.error)
    ensures path.Some? && path.value in files ==> r == Success(ReadLines(files[path.value]))
    ensures path.None? && stdin.Success? ==> r == Success(ReadLines(stdin.value))
    ensures r.Success? ==> forall i | 0 <= i < |r.value| :: '\n' !in r.value[i] && !Text.IsBlank(r.value[i])
  {
    match path
    case Some(p) => if p in files then Success(ReadLines(files[p])) else Failure(Unreadable(p))
    case None => if stdin.Success? then Success(ReadLines(stdin.value)) else Failure(stdin.error)
  }

  /** The file branch and the standard-input branch give the same list for the same text. */
  lemma ReadBranchesAgree(p: string, files: map<string, string>, stdin: Result<string, IoError>)
    requires p in files && stdin == Success(files[p])
    ensures Read(Some(p), files, stdin) == Read(None, files, stdin)
  {
  }

  // ---------------------------------------------------------------------
  // Credentials and the run
  // ---------------------------------------------------------------------

  /** One credential: the command-line value if given, else the environment variable (`Option::or`). */
  function Credential(flag: Option<string>, env: map<string, string>, name: string): (r: Option<string>)
    ensures flag.Some? ==> r == flag
    ensures flag.None? ==> (r.Some? <==> name in env)
    ensures flag.None? && name in env ==> r.value == env[name]
  {
    flag.Or(Get(env, name))
  }

  /** How `main` ends. */
  datatype Outcome =
    | ReadFailed(error: IoError)                  // `read(...).await?` returned the error
    | NothingToDo                                 // empty URL list: `exit(1)`
    | MissingCredentials                          // a key missing: `exit(1)`
    | Submitted(urls: seq<string>, credentials: Network.Credentials, run: Network.Final)

  /** The process exit status; None while a run has used every reply given and is still going. */
  function ExitCode(o: Outcome): (code: Option<int>)
    ensures code == Some(0) <==> o.Submitted? && o.run.halt == Network.Completed
    ensures code.None? <==> o.Submitted? && o.run.halt == Network.Exhausted
    ensures code.Some? && code.value != 0 ==> code.value == 1
  {
    if !o.Submitted? then Some(1)
    else
      match o.run.halt
      case Completed => Some(0)
      case Aborted => Some(1)
      case Exhausted => None
  }

  /**
   * `main` after argument parsing: choose the log filter, read the list,
   * stop on an empty list, resolve both keys, stop if either is missing,
   * and otherwise hand the list and the keys to the queue.
   */
  method Execute(args: Arguments.Arguments, files: map<string, string>, stdin: Result<string, IoError>,
                 env: map<string, string>, replies: seq<Network.Reply>)
    returns (filter: Arguments.LevelFilter, outcome: Outcome)
    ensures filter == Arguments.ToFilter(args.verbosity)
    ensures var read := Read(args.inputFile, files, stdin);
      var access := Credential(args.credentials.accessKey, env, ApiAccessKey);
      var secret := Credential(args.credentials.secretKey, env, ApiSecretKey);
      && (read.Failure? <==> outcome.ReadFailed?)
      && (read.Failure? ==> outcome.error == read.error)
      && (outcome == NothingToDo <==> read == Success([]))
      && (outcome == MissingCredentials <==> read.Success? && read.value != [] && (access.None? || secret.None?))
      && (outcome.Submitted? <==> read.Success? && read.value != [] && access.Some? && secret.Some?)
      && (outcome.Submitted? ==>
            && outcome.urls == read.value
            && outcome.credentials == Network.Credentials(access.value, secret.value)
            && outcome.run == Network.Run(Network.Start(outcome.urls), |outcome.urls|, outcome.credentials, replies))
  {
    filter := Arguments.ToFilter(args.verbosity);
    var read := Read(args.inputFile, files, stdin);
    if read.Failure? {
      outcome := ReadFailed(read.error);
      return;
    }
    var urls := read.value;
    if urls == [] {
      outcome := NothingToDo;
      return;
    }
    var access := Credential(args.credentials.accessKey, env, ApiAccessKey);
    var secret := Credential(args.credentials.secretKey, env, ApiSecretKey);
    if access.None? || secret.None? {
      outcome := MissingCredentials;
      return;
    }
    var credentials := Network.Credentials(access.value, secret.value);
    var halt, queue, index, trace, sent := Network.Submit(urls, credentials, replies);
    outcome := Submitted(urls, credentials, Network.Final(halt, Network.Progress(queue, index, trace, sent)));
  }
}
