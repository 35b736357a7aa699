/** The detail view of one process (monitors/cpu/src/process_details.rs): arguments,
    environment, open files, network connections, user and group, each parsed from the
    output of `ps` or `lsof`. Each command's run is an input. */
module ProcessDetails {
  import opened Common
  import opened Strings
  import opened Seqs
  import opened Sorting
  import opened Posix

  /** Open files kept at most. */
  const MaxOpenFiles: nat := 50
  /** Connections kept at most. */
  const MaxConnections: nat := 20

  /** The lines of a successful run's output after the header; none otherwise. */
  function BodyLines(run: CommandRun): (lines: seq<string>)
    ensures run.Exited? && run.success ==> lines == SkipFirst(Lines(run.stdout))
    ensures !(run.Exited? && run.success) ==> lines == []
  {
    if run.Exited? && run.success then SkipFirst(Lines(run.stdout)) else []
  }

  // ---------------------------------------------------------------------------
  // Arguments, user and group

  /** `get_process_arguments`: the whitespace-separated words of `ps -o command=`, or none
      when `ps` could not run or failed. */
  function Arguments(run: CommandRun): (args: seq<string>)
    ensures !(run.Exited? && run.success) ==> args == []
    ensures forall i :: 0 <= i < |args| ==> args[i] != [] && NoSpace(args[i])
  {
    if run.Exited? && run.success then SplitWhitespace(Trim(run.stdout)) else []
  }

  /** A space-joined list of words starts with the first word's first character and ends with
      the last word's last character. */
  lemma {:induction false} JoinEnds(words: seq<string>)
    requires words != [] && forall i :: 0 <= i < |words| ==> words[i] != []
    ensures var s := Join(words, " ");
            s != [] && s[0] == words[0][0] && s[|s| - 1] == words[|words| - 1][|words[|words| - 1]| - 1]
    decreases |words|
  {
    if |words| > 1 {
      JoinEnds(words[1..]);
    }
  }

  /** A command line made of words separated by single spaces is split back into those words. */
  lemma ArgumentsRoundTrip(words: seq<string>)
    requires forall i :: 0 <= i < |words| ==> words[i] != [] && NoSpace(words[i])
    ensures Arguments(Exited(true, Join(words, " "))) == words
  {
    var s := Join(words, " ");
    if words != [] {
      JoinEnds(words);
      assert !IsSpace(words[0][0]);
      var last := words[|words| - 1];
      assert !IsSpace(last[|last| - 1]);
      assert TrimStart(s) == s;
      assert TrimEnd(s) == s;
    }
    SplitJoinedWords(words);
  }

  /** `get_process_user` / `get_process_group`: the trimmed output of `ps -o user=` (or
      `group=`), and "unknown" when the command could not run or failed. */
  function OwnerField(run: CommandRun): (name: string)
    ensures !(run.Exited? && run.success) ==> name == "unknown"
    ensures run.Exited? && run.success ==> name == Trim(run.stdout)
    ensures name == [] || (!IsSpace(name[0]) && !IsSpace(name[|name| - 1]))
  {
    if run.Exited? && run.success then Trim(run.stdout) else "unknown"
  }

  // ---------------------------------------------------------------------------
  // Environment

  /** The map a sequence of optional bindings builds, a later binding overriding an earlier one. */
  function Bind<K, V>(ps: seq<Option<(K, V)>>): map<K, V> {
    if ps == [] then map[]
    else
      var env := Bind(ps[..|ps| - 1]);
      match ps[|ps| - 1]
      case Some(kv) => env[kv.0 := kv.1]
      case None => env
  }

  /** A key is bound exactly when some binding names it. */
  lemma {:induction false} BindKeys<K, V>(ps: seq<Option<(K, V)>>, key: K)
    ensures key in Bind(ps) <==> exists i :: 0 <= i < |ps| && ps[i].Some? && ps[i].value.0 == key
  {
    if ps != [] {
      var n := |ps| - 1;
      var init := ps[..n];
      BindKeys(init, key);
      if !(ps[n].Some? && ps[n].value.0 == key) {
        if key in Bind(init) {
          var i :| 0 <= i < |init| && init[i].Some? && init[i].value.0 == key;
          assert ps[i] == init[i];
        }
        if exists i :: 0 <= i < |ps| && ps[i].Some? && ps[i].value.0 == key {
          var i :| 0 <= i < |ps| && ps[i].Some? && ps[i].value.0 == key;
          assert i < n && init[i] == ps[i];
        }
      }
    }
  }

  /** A bound key is bound to the value of the last binding naming it. */
  lemma {:induction false} BindLast<K, V>(ps: seq<Option<(K, V)>>, key: K)
    requires key in Bind(ps)
    ensures exists i :: 0 <= i < |ps| && ps[i] == Some((key, Bind(ps)[key]))
                        && forall j :: i < j < |ps| ==> ps[j].None? || ps[j].value.0 != key
  {
    var n := |ps| - 1;
    var init := ps[..n];
    if !(ps[n].Some? && ps[n].value.0 == key) {
      BindLast(init, key);
      var i :| 0 <= i < |init| && init[i] == Some((key, Bind(init)[key]))
                && forall j :: i < j < |init| ==> init[j].None? || init[j].value.0 != key;
      assert ps[i] == init[i];
      forall j | i < j < |ps| ensures ps[j].None? || ps[j].value.0 != key {
        if j < n {
          assert ps[j] == init[j];
        }
      }
    } else {
      assert ps[n] == Some((key, Bind(ps)[key]));
    }
  }

  /** Each line split at its first '='. */
  function Bindings(lines: seq<string>): (ps: seq<Option<(string, string)>>)
    ensures |ps| == |lines|
    ensures forall i :: 0 <= i < |lines| ==> ps[i] == SplitOnce(lines[i], '=')
  {
    seq(|lines|, i requires 0 <= i < |lines| => SplitOnce(lines[i], '='))
  }

  /** The environment the lines describe: each line with a '=' binds the text before its
      first '=' to the text after it, a later line overriding an earlier one. */
  function EnvOf(lines: seq<string>): map<string, string> {
    Bind(Bindings(lines))
  }

  /** Whether `line` binds `key`. */
  predicate Binds(line: string, key: string) {
    SplitOnce(line, '=').Some? && SplitOnce(line, '=').value.0 == key
  }

  /** A key is bound exactly when some line has it before its first '=', and it is bound to
      what follows the '=' on the last such line. */
  lemma EnvOfBinding(lines: seq<string>, key: string)
    ensures key in EnvOf(lines) <==> exists i :: 0 <= i < |lines| && Binds(lines[i], key)
    ensures key in EnvOf(lines)
            ==> exists i :: 0 <= i < |lines| && SplitOnce(lines[i], '=') == Some((key, EnvOf(lines)[key]))
                            && forall j :: i < j < |lines| ==> !Binds(lines[j], key)
  {
    var ps := Bindings(lines);
    BindKeys(ps, key);
    if key in EnvOf(lines) {
      BindLast(ps, key);
    }
  }

  /** The `ps -E` loop of `get_process_environment`: lines after the header, split at their
      first '='; a line without '=' is skipped. */
  method Environment(run: CommandRun) returns (env: map<string, string>)
    ensures env == EnvOf(BodyLines(run))
  {
    var lines := BodyLines(run);
    ghost var ps := Bindings(lines);
    env := map[];
    var i := 0;
    while i < |lines|
      invariant 0 <= i <= |lines|
      invariant env == Bind(ps[..i])
    {
      assert ps[..i + 1][..i] == ps[..i];
      match SplitOnce(lines[i], '=') {
        case Some(kv) => env := env[kv.0 := kv.1];
        case None =>
      }
      i := i + 1;
    }
    assert ps[..i] == ps;
  }

  /** A single line `key=value` with no '=' in the key binds just that key. */
  lemma EnvironmentOfOneVariable(header: string, key: string, value: string)
    requires '\n' !in header && '\n' !in key && '\n' !in value && '=' !in key
    ensures EnvOf(SkipFirst(Lines(header + "\n" + key + "=" + value))) == map[key := value]
  {
    var line := key + "=" + value;
    assert header + "\n" + key + "=" + value == header + "\n" + line;
    LinesCons(header, line);
    assert '\n' !in line;
    LinesSingle(line);
    SplitOnceAt(key, '=', value);
    var ps := Bindings([line]);
    assert ps == [Some((key, value))];
    assert ps[..0] == [];
    assert Bind(ps) == map[][key := value];
  }

  // ---------------------------------------------------------------------------
  // Open files and connections

  /** The open-file name an `lsof -p` line reports: the ninth field onwards, re-joined by
      single spaces, for lines of at least nine fields whose TYPE is REG, DIR or PIPE. */
  function OpenFileName(line: string): (name: Option<string>)
    ensures name.Some? <==> var f := SplitWhitespace(line); |f| >= 9 && f[4] in {"REG", "DIR", "PIPE"}
    ensures name.Some? ==> name.value == Join(SplitWhitespace(line)[8..], " ")
  {
    var f := SplitWhitespace(line);
    if |f| >= 9 && (f[4] == "REG" || f[4] == "DIR" || f[4] == "PIPE") then Some(Join(f[8..], " ")) else None
  }

  /** The `lsof -p` part of `get_open_files`: the names in increasing order without repeats,
      at most fifty. */
  method OpenFiles(run: CommandRun) returns (files: seq<string>)
    ensures files == Truncate(SortDedup(FilterMap(BodyLines(run), OpenFileName)), MaxOpenFiles)
  {
    var lines := BodyLines(run);
    var found := [];
    var i := 0;
    while i < |lines|
      invariant 0 <= i <= |lines|
      invariant found == FilterMap(lines[..i], OpenFileName)
    {
      FilterMapSnoc(lines[..i], lines[i], OpenFileName);
      assert lines[..i + 1] == lines[..i] + [lines[i]];
      found := found + OptionToSeq(OpenFileName(lines[i]));
      i := i + 1;
    }
    assert lines[..i] == lines;
    files := Truncate(SortDedup(found), MaxOpenFiles);
  }

  /** What the open-file list promises: increasing (so without repeats), at most fifty, each
      the name of a qualifying line, and every qualifying name when there are at most fifty. */
  lemma OpenFilesReported(lines: seq<string>)
    ensures var files := Truncate(SortDedup(FilterMap(lines, OpenFileName)), MaxOpenFiles);
            |files| <= MaxOpenFiles && StrictlyIncreasing(files)
            && (forall f :: f in files ==> exists i :: 0 <= i < |lines| && OpenFileName(lines[i]) == Some(f))
            && (|SortDedup(FilterMap(lines, OpenFileName))| <= MaxOpenFiles
                ==> forall i :: 0 <= i < |lines| && OpenFileName(lines[i]).Some? ==> OpenFileName(lines[i]).value in files)
  {
    var names := FilterMap(lines, OpenFileName);
    var sorted := SortDedup(names);
    var files := Truncate(sorted, MaxOpenFiles);
    forall i, j | 0 <= i < j < |files| ensures Less(files[i], files[j]) {
      assert files[i] == sorted[i] && files[j] == sorted[j];
    }
    forall f | f in files ensures exists i :: 0 <= i < |lines| && OpenFileName(lines[i]) == Some(f) {
      assert f in sorted;
      FilterMapMember(lines, OpenFileName, f);
    }
    if |sorted| <= MaxOpenFiles {
      forall i | 0 <= i < |lines| && OpenFileName(lines[i]).Some? ensures OpenFileName(lines[i]).value in files {
        FilterMapMember(lines, OpenFileName, OpenFileName(lines[i]).value);
      }
    }
  }

  /** The connection an `lsof -i` line reports: the ninth field onwards, re-joined by single
      spaces, when it mentions TCP or UDP. */
  function ConnectionName(line: string): (name: Option<string>)
    ensures name.Some? <==> var f := SplitWhitespace(line);
                             |f| >= 9 && (Contains(Join(f[8..], " "), "TCP") || Contains(Join(f[8..], " "), "UDP"))
    ensures name.Some? ==> name.value == Join(SplitWhitespace(line)[8..], " ")
  {
    var f := SplitWhitespace(line);
    if |f| >= 9 then
      var name := Join(f[8..], " ");
      if Contains(name, "TCP") || Contains(name, "UDP") then Some(name) else None
    else None
  }

  /** The `lsof -i -a -p` part of `get_network_connections`: the first twenty connections, in
      output order. */
  method Connections(run: CommandRun) returns (conns: seq<string>)
    ensures conns == Truncate(FilterMap(BodyLines(run), ConnectionName), MaxConnections)
  {
    var lines := BodyLines(run);
    var found := [];
    var i := 0;
    while i < |lines|
      invariant 0 <= i <= |lines|
      invariant found == FilterMap(lines[..i], ConnectionName)
    {
      FilterMapSnoc(lines[..i], lines[i], ConnectionName);
      assert lines[..i + 1] == lines[..i] + [lines[i]];
      found := found + OptionToSeq(ConnectionName(lines[i]));
      i := i + 1;
    }
    assert lines[..i] == lines;
    conns := Truncate(found, MaxConnections);
  }

  /** What the connection list promises: at most twenty, each mentioning TCP or UDP, and a
      prefix of all the qualifying lines' names in output order. */
  lemma ConnectionsReported(lines: seq<string>)
    ensures var all := FilterMap(lines, ConnectionName);
            var conns := Truncate(all, MaxConnections);
            |conns| <= MaxConnections && conns == all[..|conns|]
            && (|all| >= MaxConnections ==> |conns| == MaxConnections)
            && forall c :: c in conns ==> Contains(c, "TCP") || Contains(c, "UDP")
  {
    var all := FilterMap(lines, ConnectionName);
    var conns := Truncate(all, MaxConnections);
    forall c | c in conns ensures Contains(c, "TCP") || Contains(c, "UDP") {
      assert c in all;
      FilterMapMember(lines, ConnectionName, c);
    }
  }

  // ---------------------------------------------------------------------------
  // The whole detail record

  datatype Details = Details(
    pid: nat,
    executablePath: string,
    arguments: seq<string>,
    environment: map<string, string>,
    openFiles: seq<string>,
    connections: seq<string>,
    user: string,
    group: string)

  /** The commands `ProcessDetails::new` runs, and the `proc_pidpath` answer. */
  datatype DetailRuns = DetailRuns(
    path: Option<string>,
    command: CommandRun,
    environment: CommandRun,
    files: CommandRun,
    network: CommandRun,
    user: CommandRun,
    group: CommandRun)

  /** `ProcessDetails::new`: every field is filled, an unreadable path becoming "". */
  method NewDetails(pid: nat, runs: DetailRuns) returns (d: Details)
    ensures d.pid == pid && d.executablePath == runs.path.UnwrapOr("")
    ensures d.arguments == Arguments(runs.command)
    ensures d.environment == EnvOf(BodyLines(runs.environment))
    ensures d.openFiles == Truncate(SortDedup(FilterMap(BodyLines(runs.files), OpenFileName)), MaxOpenFiles)
    ensures d.connections == Truncate(FilterMap(BodyLines(runs.network), ConnectionName), MaxConnections)
    ensures d.user == OwnerField(runs.user) && d.group == OwnerField(runs.group)
  {
    var env := Environment(runs.environment);
    var files := OpenFiles(runs.files);
    var conns := Connections(runs.network);
    d := Details(pid, runs.path.UnwrapOr(""), Arguments(runs.command), env, files, conns,
                 OwnerField(runs.user), OwnerField(runs.group));
  }
}
