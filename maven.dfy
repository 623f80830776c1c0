/**
 * The Maven helpers of `jotfiles/maven/__init__.py`: the `mvn` command
 * lines they assemble (the build of `compile_mvn`, the single-test run of
 * `_test`) and the loop of `compile_mvn` that turns Maven's output into a
 * one-line progress bar, echoing the summary and the error lines.
 *
 * The command lines are strings; what they are for is shown by reading
 * them back: `Split` (Python's `str.split(" ")`) recovers the words of a
 * command, `ReadTestArgs` the request a test command was built from, and
 * `SuspendOf`/`AddressOf` the settings of the debug argument.
 */
module Maven {

  datatype Option<T> = None | Some(value: T)

  /** The port of `default_repo`. */
  const DefaultPort: string := "8000"

  /** `base_args` of `mvn_cmd`. */
  const BaseArgs: seq<string> := ["-fae", "-nsu", "-T 1.5C", "-Dstyle.color=always"]

  // ---------------------------------------------------------------------
  // Joining and splitting on single spaces

  /** `" ".join(parts)` */
  function Join(parts: seq<string>): string
  {
    if |parts| == 0 then ""
    else if |parts| == 1 then parts[0]
    else parts[0] + " " + Join(parts[1..])
  }

  /** `s.split(" ")`: every single space separates two words, so empty words are kept. */
  function Split(s: string): (r: seq<string>)
    ensures |r| >= 1
  {
    if s == [] then [""]
    else
      var rest := Split(s[1..]);
      if s[0] == ' ' then [""] + rest else [[s[0]] + rest[0]] + rest[1..]
  }

  /** The words of each part, one after the other. */
  function Words(parts: seq<string>): seq<string>
  {
    if parts == [] then [] else Split(parts[0]) + Words(parts[1..])
  }

  predicate NoSpace(s: string)
  {
    forall k :: 0 <= k < |s| ==> s[k] != ' '
  }

  lemma {:induction false} JoinAppend(a: seq<string>, b: seq<string>)
    requires a != [] && b != []
    ensures Join(a + b) == Join(a) + " " + Join(b)
    decreases |a|
  {
    if |a| == 1 {
      assert (a + b)[1..] == b;
    } else {
      assert (a + b)[1..] == a[1..] + b;
      JoinAppend(a[1..], b);
    }
  }

  /** A word without spaces splits into itself. */
  lemma {:induction false} SplitWord(p: string)
    requires NoSpace(p)
    ensures Split(p) == [p]
    decreases |p|
  {
    if p != [] {
      SplitWord(p[1..]);
      assert [p[0]] + p[1..] == p;
    }
  }

  /** Splitting at a space splits each side on its own. */
  lemma {:induction false} SplitSpace(a: string, b: string)
    ensures Split(a + " " + b) == Split(a) + Split(b)
    decreases |a|
  {
    if a == [] {
      assert a + " " + b == [' '] + b;
      assert ([' '] + b)[1..] == b;
    } else {
      assert (a + " " + b)[1..] == a[1..] + " " + b;
      SplitSpace(a[1..], b);
    }
  }

  lemma {:induction false} WordsAppend(a: seq<string>, b: seq<string>)
    ensures Words(a + b) == Words(a) + Words(b)
    decreases |a|
  {
    if a == [] {
      assert a + b == b;
    } else {
      assert (a + b)[1..] == a[1..] + b;
      WordsAppend(a[1..], b);
    }
  }

  /** Splitting a join gives back the words of the parts. */
  lemma {:induction false} SplitJoin(parts: seq<string>)
    requires parts != []
    ensures Split(Join(parts)) == Words(parts)
    decreases |parts|
  {
    if |parts| == 1 {
      assert Words(parts[1..]) == [];
    } else {
      SplitSpace(parts[0], Join(parts[1..]));
      SplitJoin(parts[1..]);
    }
  }

  /** Parts without spaces come back unchanged, empty ones included. */
  lemma {:induction false} SplitJoinWords(parts: seq<string>)
    requires parts != []
    requires forall i :: 0 <= i < |parts| ==> NoSpace(parts[i])
    ensures Split(Join(parts)) == parts
  {
    SplitJoin(parts);
    WordsOfWords(parts);
  }

  lemma {:induction false} WordsOfWords(parts: seq<string>)
    requires forall i :: 0 <= i < |parts| ==> NoSpace(parts[i])
    ensures Words(parts) == parts
    decreases |parts|
  {
    if parts != [] {
      SplitWord(parts[0]);
      WordsOfWords(parts[1..]);
    }
  }

  // ---------------------------------------------------------------------
  // `_local_repo`, `_port`, `_debug`, `mvn_cmd`

  /** `_local_repo`: the local repository lives under `$HOME/.m2`. */
  function LocalRepo(home: string): string
  {
    "-Dmaven.repo.local=" + (home + "/.m2") + "/repository"
  }

  /**
   * The local repository argument sets the Maven property to the
   * "repository" directory under `$HOME/.m2`, and the home directory can be
   * read back out of it.
   */
  lemma LocalRepoReadBack(home: string)
    ensures var r := LocalRepo(home);
      var p := "-Dmaven.repo.local=";
      |r| == |p| + |home| + |"/.m2/repository"| &&
      r[..|p|] == p && r[|p|..|p| + |home|] == home && r[|p| + |home|..] == "/.m2/repository"
  {
    var p := "-Dmaven.repo.local=";
    assert LocalRepo(home) == p + home + "/.m2/repository";
  }

  /** The port `_port` puts in the address: the override, else the default. */
  function PortValue(override: Option<string>): string
  {
    if override.Some? then override.value else DefaultPort
  }

  /** `_port` */
  function Port(override: Option<string>): string
  {
    "address=" + PortValue(override)
  }

  /** The JVM options of `_debug`, up to the suspend flag. */
  const DebugOptions: string := "\"-Xdebug -Xrunjdwp:transport=dt_socket,server=y,"

  /** The JVM options of `_debug` after the address. */
  const DebugTail: string := " -Xnoagent -Djava.compiler=NONE\""

  /** `_debug` */
  function Debug(suspend: bool, port: Option<string>): string
  {
    var prop := "-Dmaven.surefire.debug=";
    var susFlag := "suspend=" + (if suspend then "y" else "n");
    var address := Port(port);
    prop + DebugOptions + susFlag + "," + address + DebugTail
  }

  /** Everything of a debug argument before its suspend flag. */
  function DebugHead(): string
  {
    "-Dmaven.surefire.debug=" + DebugOptions + "suspend="
  }

  predicate StartsWith(s: string, prefix: string)
  {
    |prefix| <= |s| && s[..|prefix|] == prefix
  }

  /** Reads the suspend flag back out of a debug argument. */
  function SuspendOf(d: string): Option<bool>
  {
    var head := DebugHead();
    if |d| > |head| && d[..|head|] == head && d[|head|] in "yn" then Some(d[|head|] == 'y')
    else None
  }

  /** Reads the debug address back out of a debug argument. */
  function AddressOf(d: string): Option<string>
  {
    var head := DebugHead();
    var start := |head| + 1 + |",address="|;
    if start + |DebugTail| <= |d| && d[..|head|] == head &&
       d[|head| + 1..start] == ",address=" && d[|d| - |DebugTail|..] == DebugTail
    then Some(d[start..|d| - |DebugTail|])
    else None
  }

  /**
   * The debug argument gives back what it was built from: "suspend=y"
   * exactly when suspending, and the address is the override port or the
   * default one.
   */
  lemma DebugReadBack(suspend: bool, port: Option<string>)
    ensures SuspendOf(Debug(suspend, port)) == Some(suspend)
    ensures AddressOf(Debug(suspend, port)) == Some(PortValue(port))
    ensures Debug(suspend, port)[|DebugHead()|] == 'y' <==> suspend
  {
    var d := Debug(suspend, port);
    var head := DebugHead();
    var flag := if suspend then 'y' else 'n';
    assert "suspend=" + (if suspend then "y" else "n") == "suspend=" + [flag];
    Regroup("-Dmaven.surefire.debug=", DebugOptions, "suspend=", flag, ",", "address=", PortValue(port), DebugTail);
    assert "," + "address=" == ",address=";
    FiveParts(head, flag, ",address=", PortValue(port), DebugTail);
  }

  lemma Regroup(prop: string, options: string, key: string, flag: char, comma: string, name: string,
                value: string, tail: string)
    ensures prop + options + (key + [flag]) + comma + (name + value) + tail ==
            (prop + options + key) + [flag] + (comma + name) + value + tail
  {
  }

  /** Where each of five concatenated pieces sits, the second one a single character. */
  lemma FiveParts(head: string, flag: char, mid: string, value: string, tail: string)
    ensures var d := head + [flag] + mid + value + tail;
      var start := |head| + 1 + |mid|;
      |d| == start + |value| + |tail| &&
      d[..|head|] == head && d[|head|] == flag && d[|head| + 1..start] == mid &&
      d[start..|d| - |tail|] == value && d[|d| - |tail|..] == tail
  {
    var d := head + [flag] + mid + value + tail;
    var start := |head| + 1 + |mid|;
    assert d[..|head|] == head;
    assert d[|head| + 1..start] == mid;
    assert d[start..|d| - |tail|] == value;
    assert d[|d| - |tail|..] == tail;
  }

  /** `mvn_cmd` */
  function MvnCmd(home: string, args: seq<string>): string
  {
    var baseArgs := BaseArgs;
    var localRepo := LocalRepo(home);
    Join(["mvn"] + args + baseArgs + [localRepo])
  }

  /** The words of a command line's parts are the words of each part in turn. */
  lemma CommandParts(first: string, args: seq<string>, base: seq<string>, last: string)
    ensures Words([first] + args + base + [last]) == Split(first) + Words(args) + Words(base) + Split(last)
  {
    var tail := base + [last];
    assert [first] + args + base + [last] == [first] + (args + tail);
    WordsCons(first, args + tail);
    WordsAppend(args, tail);
    WordsAppend(base, [last]);
    WordsCons(last, []);
  }

  /** Split on single spaces, a command line gives its words back. */
  lemma CommandWords(first: string, args: seq<string>, base: seq<string>, last: string)
    requires Split(first) == [first]
    requires Words(args) == args
    requires Split(last) == [last]
    ensures Split(Join([first] + args + base + [last])) == [first] + args + Words(base) + [last]
  {
    var parts := [first] + args + base + [last];
    CommandParts(first, args, base, last);
    SplitJoin(parts);
  }

  /**
   * Split on single spaces, an `mvn` command gives back "mvn", every
   * argument as one word (an empty argument as an empty word), the words of
   * the fixed options and the local repository.
   */
  lemma MvnCmdWords(home: string, args: seq<string>)
    requires NoSpace(home)
    requires forall i :: 0 <= i < |args| ==> NoSpace(args[i])
    ensures Split(MvnCmd(home, args)) == ["mvn"] + args + Words(BaseArgs) + [LocalRepo(home)]
  {
    LocalRepoNoSpace(home);
    SplitWord(LocalRepo(home));
    WordsOfWords(args);
    SplitWord("mvn");
    CommandWords("mvn", args, BaseArgs, LocalRepo(home));
  }

  lemma LocalRepoNoSpace(home: string)
    requires NoSpace(home)
    ensures NoSpace(LocalRepo(home))
  {
    NoSpaceAppend("-Dmaven.repo.local=", home);
    NoSpaceAppend("-Dmaven.repo.local=" + home, "/.m2");
    assert "-Dmaven.repo.local=" + (home + "/.m2") == "-Dmaven.repo.local=" + home + "/.m2";
    NoSpaceAppend("-Dmaven.repo.local=" + home + "/.m2", "/repository");
  }

  lemma NoSpaceAppend(a: string, b: string)
    requires NoSpace(a) && NoSpace(b)
    ensures NoSpace(a + b)
  {
    assert forall k :: |a| <= k < |a + b| ==> (a + b)[k] == b[k - |a|];
  }

  lemma WordsCons(w: string, rest: seq<string>)
    ensures Words([w] + rest) == Split(w) + Words(rest)
  {
    assert ([w] + rest)[1..] == rest;
  }

  // ---------------------------------------------------------------------
  // `compile_mvn` and `_test` arguments

  /** `compile_mvn`: install without tests, the extra arguments, "clean" first on request. */
  function CompileArgs(clean: bool, extra: seq<string>): (r: seq<string>)
    ensures |r| == |extra| + 2 + (if clean then 1 else 0)
    ensures (r[0] == "clean") <==> clean
    ensures r[|r| - |extra| - 2..] == ["install", "-DskipTests"] + extra
  {
    var args := ["install", "-DskipTests"] + extra;
    if clean then ["clean"] + args else args
  }

  /** `["-P" + profile for profile in profiles if profile]` */
  function ProfileFlags(profiles: seq<string>): (r: seq<string>)
    ensures |r| <= |profiles|
    ensures forall k :: 0 <= k < |r| ==> |r[k]| >= 3 && r[k][..2] == "-P"
  {
    if profiles == [] then []
    else
      var rest := ProfileFlags(profiles[1..]);
      if profiles[0] == "" then rest else ["-P" + profiles[0]] + rest
  }

  /** The profiles that are not empty, in order. */
  function NonEmpty(profiles: seq<string>): seq<string>
  {
    if profiles == [] then []
    else if profiles[0] == "" then NonEmpty(profiles[1..])
    else [profiles[0]] + NonEmpty(profiles[1..])
  }

  /** `_test`'s arguments for `mvn_cmd`. */
  function TestArgs(moduleName: Option<string>, testReference: string, profiles: seq<string>, comp: bool,
                    suspend: bool, port: Option<string>, extra: seq<string>): seq<string>
  {
    // debug is only active when suspending
    var debug := if suspend then Debug(suspend, port) else "";
    LeadingArgs(moduleName, testReference, comp) + ProfileFlags(profiles) + ["-o", debug] + extra
  }

  /** What a test command asks for. */
  datatype TestRequest = TestRequest(
    moduleName: Option<string>,
    testReference: string,
    profiles: seq<string>,
    comp: bool,
    debugAddress: Option<string>,   // present exactly when the JVM waits for a debugger
    extra: seq<string>)

  predicate IsProfileFlag(a: string)
  {
    |a| >= 3 && a[..2] == "-P"
  }

  /** How many profile flags the arguments start with. */
  function LeadingProfiles(args: seq<string>): (n: nat)
    ensures n <= |args|
    ensures forall k :: 0 <= k < n ==> IsProfileFlag(args[k])
    ensures n < |args| ==> !IsProfileFlag(args[n])
  {
    if args != [] && IsProfileFlag(args[0]) then 1 + LeadingProfiles(args[1..]) else 0
  }

  /** The profile names of a run of profile flags. */
  function ProfileNames(flags: seq<string>): seq<string>
    requires forall k :: 0 <= k < |flags| ==> IsProfileFlag(flags[k])
  {
    if flags == [] then [] else assert IsProfileFlag(flags[0]); [flags[0][2..]] + ProfileNames(flags[1..])
  }

  /** Reads a test request back out of the arguments `_test` assembles. */
  function ReadTestArgs(args: seq<string>): Option<TestRequest>
  {
    if |args| < 5 || args[0] !in ["test", "surefire:test"] then None
    else if args[1] != "" && !StartsWith(args[1], "-pl :") then None
    else if !StartsWith(args[2], "-Dtest=") then None
    else
      var n := LeadingProfiles(args[3..]);
      if 3 + n + 2 > |args| || args[3 + n] != "-o" then None
      else
        var debug := args[4 + n];
        var address := if debug == "" then None else AddressOf(debug);
        if debug != "" && (address.None? || SuspendOf(debug) != Some(true)) then None
        else
          Some(TestRequest(
            if args[1] == "" then None else Some(args[1][5..]),
            args[2][7..],
            ProfileNames(args[3..3 + n]),
            args[0] == "test",
            address,
            args[5 + n..]))
  }

  lemma {:induction false} ProfileFlagsReadBack(profiles: seq<string>, rest: seq<string>)
    requires rest != [] ==> !IsProfileFlag(rest[0])
    ensures LeadingProfiles(ProfileFlags(profiles) + rest) == |ProfileFlags(profiles)|
    ensures ProfileNames(ProfileFlags(profiles)) == NonEmpty(profiles)
    decreases |profiles|
  {
    if profiles != [] {
      ProfileFlagsReadBack(profiles[1..], rest);
      var flags := ProfileFlags(profiles);
      if profiles[0] != "" {
        assert (flags + rest)[1..] == ProfileFlags(profiles[1..]) + rest;
        assert flags[0][2..] == profiles[0];
        assert flags[1..] == ProfileFlags(profiles[1..]);
      }
    } else {
      assert ProfileFlags(profiles) + rest == rest;
    }
  }

  /**
   * A test command's arguments give back the request: the phase says
   * whether to compile, "-pl" appears only for a module, only the non-empty
   * profiles appear, a debug argument only when suspending (with the
   * override or default port), and the extra arguments come last.
   */
  lemma TestArgsReadBack(moduleName: Option<string>, testReference: string, profiles: seq<string>, comp: bool,
                         suspend: bool, port: Option<string>, extra: seq<string>)
    ensures ReadTestArgs(TestArgs(moduleName, testReference, profiles, comp, suspend, port, extra)) ==
            Some(TestRequest(moduleName, testReference, NonEmpty(profiles), comp,
                             if suspend then Some(PortValue(port)) else None, extra))
  {
    var args := TestArgs(moduleName, testReference, profiles, comp, suspend, port, extra);
    var flags := ProfileFlags(profiles);
    var debug := if suspend then Debug(suspend, port) else "";
    var first := LeadingArgs(moduleName, testReference, comp);
    ArgsShape(first, flags, debug, extra);
    ProfileFlagsReadBack(profiles, ["-o", debug] + extra);
    LeadingArgsReadBack(moduleName, testReference, comp);
    DebugArgReadBack(suspend, port);
    ReadTestArgsAccepts(args, |flags|);
  }

  /** The phase, the module selection and the test selection of `_test`. */
  function LeadingArgs(moduleName: Option<string>, testReference: string, comp: bool): seq<string>
  {
    var phase := if comp then "test" else "surefire:test";
    var pl := if moduleName.None? then "" else "-pl :" + moduleName.value;
    [phase, pl, "-Dtest=" + testReference]
  }

  lemma LeadingArgsReadBack(moduleName: Option<string>, testReference: string, comp: bool)
    ensures var a := LeadingArgs(moduleName, testReference, comp);
      |a| == 3 && a[0] in ["test", "surefire:test"] && (a[0] == "test" <==> comp) &&
      (a[1] == "" <==> moduleName.None?) && (a[1] != "" ==> StartsWith(a[1], "-pl :") && Some(a[1][5..]) == moduleName) &&
      StartsWith(a[2], "-Dtest=") && a[2][7..] == testReference
  {
    if moduleName.Some? {
      PrefixOf("-pl :", moduleName.value);
    }
    PrefixOf("-Dtest=", testReference);
  }

  /** The debug argument of `_test`, present only when suspending, reads back as such. */
  lemma DebugArgReadBack(suspend: bool, port: Option<string>)
    ensures var debug := if suspend then Debug(suspend, port) else "";
      (debug != "" <==> suspend) &&
      (debug != "" ==> AddressOf(debug) == Some(PortValue(port)) && SuspendOf(debug) == Some(true))
  {
    if suspend {
      DebugReadBack(suspend, port);
    }
  }

  /** When every check of `ReadTestArgs` passes, the request is read off the fixed positions. */
  lemma ReadTestArgsAccepts(args: seq<string>, n: nat)
    requires |args| >= 5 && args[0] in ["test", "surefire:test"]
    requires args[1] == "" || StartsWith(args[1], "-pl :")
    requires StartsWith(args[2], "-Dtest=")
    requires LeadingProfiles(args[3..]) == n && 5 + n <= |args| && args[3 + n] == "-o"
    requires args[4 + n] != "" ==> AddressOf(args[4 + n]).Some? && SuspendOf(args[4 + n]) == Some(true)
    ensures ReadTestArgs(args) ==
            Some(TestRequest(
              if args[1] == "" then None else Some(args[1][5..]),
              args[2][7..],
              ProfileNames(args[3..3 + n]),
              args[0] == "test",
              if args[4 + n] == "" then None else AddressOf(args[4 + n]),
              args[5 + n..]))
  {
  }

  /** Where the pieces of `_test`'s arguments sit. */
  lemma ArgsShape(first: seq<string>, flags: seq<string>, debug: string, extra: seq<string>)
    requires |first| == 3
    ensures var args := first + flags + ["-o", debug] + extra;
      var n := |flags|;
      |args| == 5 + n + |extra| && args[..3] == first &&
      args[3..] == flags + (["-o", debug] + extra) && args[3..3 + n] == flags &&
      args[3 + n] == "-o" && args[4 + n] == debug && args[5 + n..] == extra
  {
    var args := first + flags + ["-o", debug] + extra;
    var n := |flags|;
    assert args[..3] == first;
    assert args[3..] == flags + (["-o", debug] + extra);
    assert args[3..3 + n] == flags;
    assert args[5 + n..] == extra;
  }

  lemma PrefixOf(p: string, x: string)
    ensures StartsWith(p + x, p) && (p + x)[|p|..] == x
  {
    assert (p + x)[..|p|] == p;
  }

  /**
   * `_test`: with `cmd` the command is returned; otherwise it is run (not
   * modelled) and nothing is returned.
   */
  function Test(home: string, moduleName: Option<string>, testReference: string, profiles: seq<string>, comp: bool,
                suspend: bool, port: Option<string>, cmd: bool, extra: seq<string>): Option<string>
  {
    var cmdStr := MvnCmd(home, TestArgs(moduleName, testReference, profiles, comp, suspend, port, extra));
    if cmd then Some(cmdStr) else None
  }

  /**
   * Only `cmd` returns a command; it is an `mvn` command whose first
   * argument is the phase: "test" when compiling, else "surefire:test".
   */
  lemma TestCommand(home: string, moduleName: Option<string>, testReference: string, profiles: seq<string>, comp: bool,
                    suspend: bool, port: Option<string>, cmd: bool, extra: seq<string>)
    ensures var r := Test(home, moduleName, testReference, profiles, comp, suspend, port, cmd, extra);
            (r.Some? <==> cmd) &&
            (r.Some? ==> StartsWith(r.value, "mvn ") && |Split(r.value)| >= 2 &&
                         Split(r.value)[1] == (if comp then "test" else "surefire:test"))
  {
    var args := TestArgs(moduleName, testReference, profiles, comp, suspend, port, extra);
    var rest := args[1..] + BaseArgs + [LocalRepo(home)];
    assert ["mvn"] + args + BaseArgs + [LocalRepo(home)] == ["mvn", args[0]] + rest;
    FirstTwoWords(args[0], rest);
  }

  /** A command line starting with two words without spaces starts with those words. */
  lemma FirstTwoWords(first: string, rest: seq<string>)
    requires NoSpace(first)
    ensures StartsWith(Join(["mvn", first] + rest), "mvn ")
    ensures |Split(Join(["mvn", first] + rest))| >= 2 && Split(Join(["mvn", first] + rest))[..2] == ["mvn", first]
  {
    var parts := ["mvn", first] + rest;
    assert parts == ["mvn"] + ([first] + rest);
    JoinAppend(["mvn"], [first] + rest);
    SplitJoin(parts);
    WordsCons("mvn", [first] + rest);
    WordsCons(first, rest);
    SplitWord("mvn");
    SplitWord(first);
  }

  // ---------------------------------------------------------------------
  // Reading Maven's progress off a line: `progress_re.match(line)`

  predicate IsDigit(ch: char)
  {
    '0' <= ch <= '9'
  }

  /** The length of the run of digits a string starts with. */
  function DigitRun(s: string): (n: nat)
    ensures n <= |s|
    ensures forall k :: 0 <= k < n ==> IsDigit(s[k])
    ensures n < |s| ==> !IsDigit(s[n])
  {
    if s != [] && IsDigit(s[0]) then 1 + DigitRun(s[1..]) else 0
  }

  /** `int(digits)` */
  function Value(digits: string): nat
    requires forall k :: 0 <= k < |digits| ==> IsDigit(digits[k])
  {
    if digits == [] then 0
    else
      assert IsDigit(digits[|digits| - 1]);
      Value(digits[..|digits| - 1]) * 10 + (digits[|digits| - 1] - '0') as nat
  }

  /** `"%d" % n` */
  function Decimal(n: nat): (r: string)
    ensures r != []
    ensures forall k :: 0 <= k < |r| ==> IsDigit(r[k])
  {
    var digit := ['0' + (n % 10) as char];
    if n < 10 then digit else Decimal(n / 10) + digit
  }

  lemma {:induction false} DecimalValue(n: nat)
    ensures Value(Decimal(n)) == n
    decreases n
  {
    var d := Decimal(n);
    if n >= 10 {
      DecimalValue(n / 10);
      assert d[..|d| - 1] == Decimal(n / 10);
    }
  }

  lemma {:induction false} DigitRunOf(digits: string, rest: string)
    requires forall k :: 0 <= k < |digits| ==> IsDigit(digits[k])
    requires rest != [] && !IsDigit(rest[0])
    ensures DigitRun(digits + rest) == |digits|
    decreases |digits|
  {
    if digits == [] {
      assert digits + rest == rest;
    } else {
      assert (digits + rest)[0] == digits[0];
      assert (digits + rest)[1..] == digits[1..] + rest;
      DigitRunOf(digits[1..], rest);
    }
  }

  /** `(\d+)]` at the start of `u`, as the number. */
  function Closing(u: string): Option<nat>
  {
    var b := DigitRun(u);
    if b == 0 || b >= |u| || u[b] != ']' then None else Some(Value(u[..b]))
  }

  /** `(\d+)/(\d+)]` at the start of `t`, as the two numbers. */
  function Counts(t: string): Option<(nat, nat)>
  {
    var a := DigitRun(t);
    if a == 0 || a >= |t| || t[a] != '/' then None
    else
      match Closing(t[a + 1..])
      case None => None
      case Some(total) => Some((Value(t[..a]), total))
  }

  /** A match of `\[(\d+)/(\d+)]` at position `i`, as (current, total). */
  function ProgressAt(s: string, i: nat): Option<(nat, nat)>
    requires i < |s|
  {
    if s[i] == '[' then Counts(s[i + 1..]) else None
  }

  /** Where the first line of `s` ends: `.` does not match a newline. */
  function LineEnd(s: string): (e: nat)
    ensures e <= |s|
    ensures forall k :: 0 <= k < e ==> s[k] != '\n'
    ensures e < |s| ==> s[e] == '\n'
  {
    if s == [] || s[0] == '\n' then 0 else 1 + LineEnd(s[1..])
  }

  /** The last entry that is present. */
  function LastSome<T>(found: seq<Option<T>>): Option<T>
  {
    if found == [] then None
    else if found[|found| - 1].Some? then found[|found| - 1]
    else LastSome(found[..|found| - 1])
  }

  lemma {:induction false} LastSomeIsLast<T>(found: seq<Option<T>>)
    ensures var r := LastSome(found);
            (r.None? <==> forall i :: 0 <= i < |found| ==> found[i].None?) &&
            (r.Some? ==> exists i :: 0 <= i < |found| && found[i] == r &&
                                     forall j :: i < j < |found| ==> found[j].None?)
    decreases |found|
  {
    if found != [] {
      var n := |found|;
      if found[n - 1].Some? {
        assert found[n - 1] == LastSome(found);
      } else {
        var before := found[..n - 1];
        LastSomeIsLast(before);
        assert forall i :: 0 <= i < n - 1 ==> before[i] == found[i];
        if LastSome(before).Some? {
          var i :| 0 <= i < n - 1 && before[i] == LastSome(before) && forall j :: i < j < n - 1 ==> before[j].None?;
          assert found[i] == LastSome(found);
        }
      }
    }
  }

  /** The bracket matches that start on the first line, by position. */
  function Brackets(line: string): (found: seq<Option<(nat, nat)>>)
    ensures |found| == LineEnd(line)
    ensures forall i :: 0 <= i < |found| ==> found[i] == ProgressAt(line, i)
  {
    seq(LineEnd(line), i requires 0 <= i < LineEnd(line) => ProgressAt(line, i))
  }

  /**
   * `progress_re.match(line)` with `.*\[(\d+)/(\d+)]`: the greedy `.*`
   * makes it the last bracket on the first line.
   */
  function Match(line: string): Option<(nat, nat)>
  {
    LastSome(Brackets(line))
  }

  /**
   * The match is the last "[digits/digits]" that starts on the first line
   * of `line`, and there is none exactly when no such bracket starts there.
   */
  lemma MatchIsLast(line: string)
    ensures var r := Match(line);
            (r.None? <==> forall i :: 0 <= i < LineEnd(line) ==> ProgressAt(line, i).None?) &&
            (r.Some? ==> exists i :: 0 <= i < LineEnd(line) && ProgressAt(line, i) == r &&
                                     forall j :: i < j < LineEnd(line) ==> ProgressAt(line, j).None?)
  {
    var found := Brackets(line);
    LastSomeIsLast(found);
    if Match(line).Some? {
      var i :| 0 <= i < |found| && found[i] == Match(line) && forall j :: i < j < |found| ==> found[j].None?;
      assert ProgressAt(line, i) == Match(line);
    }
  }

  function Counter(current: nat, total: nat): string
  {
    "[" + Decimal(current) + "/" + Decimal(total) + "]"
  }

  lemma ClosingOf(t: string, rest: string)
    requires t != [] && forall k :: 0 <= k < |t| ==> IsDigit(t[k])
    ensures Closing(t + "]" + rest) == Some(Value(t))
  {
    var u := t + "]" + rest;
    assert u == t + ("]" + rest);
    DigitRunOf(t, "]" + rest);
    assert u[|t|] == ']' && u[..|t|] == t;
  }

  lemma CountsOf(c: string, t: string, rest: string)
    requires c != [] && forall k :: 0 <= k < |c| ==> IsDigit(c[k])
    requires t != [] && forall k :: 0 <= k < |t| ==> IsDigit(t[k])
    ensures Counts(c + "/" + t + "]" + rest) == Some((Value(c), Value(t)))
  {
    var u := t + "]" + rest;
    var x := c + ['/'] + u;
    assert c + "/" + t + "]" + rest == x;
    Around(c, '/', u);
    DigitRunOf(c, ['/'] + u);
    ClosingOf(t, rest);
  }

  /** Where the pieces around a single character sit. */
  lemma Around(a: string, ch: char, b: string)
    ensures var x := a + [ch] + b;
      |x| == |a| + 1 + |b| && x[..|a|] == a && x[|a|] == ch && x[|a| + 1..] == b && x == a + ([ch] + b)
  {
  }

  /** The counter reads back as the numbers it was written from. */
  lemma CounterAt(prefix: string, current: nat, total: nat, rest: string)
    ensures var s := prefix + Counter(current, total) + rest;
            |prefix| < |s| && ProgressAt(s, |prefix|) == Some((current, total))
  {
    var c := Decimal(current);
    var t := Decimal(total);
    var s := prefix + Counter(current, total) + rest;
    assert s == prefix + ("[" + (c + "/" + t + "]" + rest));
    assert s[|prefix|] == '[' && s[|prefix| + 1..] == c + "/" + t + "]" + rest;
    CountsOf(c, t, rest);
    DecimalValue(current);
    DecimalValue(total);
  }

  /** Inside and after the counter no bracket opens, and no newline comes before its end. */
  lemma CounterIsLast(prefix: string, current: nat, total: nat, rest: string)
    requires forall k :: 0 <= k < |prefix| ==> prefix[k] != '\n'
    requires forall k :: 0 <= k < |rest| ==> rest[k] != '['
    ensures var s := prefix + Counter(current, total) + rest;
            var end := |prefix| + |Counter(current, total)|;
            (forall k :: 0 <= k < end ==> s[k] != '\n') &&
            (forall j :: |prefix| < j < |s| ==> s[j] != '[')
  {
    var c := Decimal(current);
    var t := Decimal(total);
    var counter := Counter(current, total);
    var s := prefix + counter + rest;
    var i := |prefix|;
    assert counter == "[" + c + "/" + t + "]";
    forall k | 0 <= k < |counter|
      ensures counter[k] != '\n' && (k > 0 ==> counter[k] != '[')
    {
      if 1 <= k < 1 + |c| {
        assert counter[k] == c[k - 1];
      } else if 2 + |c| <= k < |counter| - 1 {
        assert counter[k] == t[k - 2 - |c|];
      }
    }
    forall k | 0 <= k < i + |counter|
      ensures s[k] != '\n'
    {
      if k >= i {
        assert s[k] == counter[k - i];
      }
    }
    forall j | i < j < |s|
      ensures s[j] != '['
    {
      if j < i + |counter| {
        assert s[j] == counter[j - i];
      } else {
        assert s[j] == rest[j - i - |counter|];
      }
    }
  }

  /**
   * A line whose first line ends in Maven's "[current/total]" counter,
   * followed by anything without a bracket, yields that counter.
   */
  lemma MatchCounter(prefix: string, current: nat, total: nat, rest: string)
    requires forall k :: 0 <= k < |prefix| ==> prefix[k] != '\n'
    requires forall k :: 0 <= k < |rest| ==> rest[k] != '['
    ensures Match(prefix + Counter(current, total) + rest) == Some((current, total))
  {
    var s := prefix + Counter(current, total) + rest;
    var i := |prefix|;
    CounterAt(prefix, current, total, rest);
    CounterIsLast(prefix, current, total, rest);
    var end := i + |Counter(current, total)|;
    assert LineEnd(s) >= end;
    MatchIsLast(s);
    assert Match(s).Some?;
    var j :| 0 <= j < LineEnd(s) && ProgressAt(s, j) == Match(s) &&
             forall k :: j < k < LineEnd(s) ==> ProgressAt(s, k).None?;
    assert s[j] == '[';
    assert j == i;
  }

  // ---------------------------------------------------------------------
  // The progress bar

  /**
   * `max(int(x * 100 / total), 1)`: Python's `int` of the quotient cuts
   * toward zero, which for a negative `x` gives at most zero, so one.
   */
  function Ticks(x: int, total: nat): (r: nat)
    requires total > 0
    ensures r >= 1
  {
    var q := if x >= 0 then x * 100 / total else -((-x) * 100 / total);
    if q >= 1 then q else 1
  }

  /** The ticks are the whole hundredths of the total that `x` makes, and at least one. */
  lemma TicksBounds(x: int, total: nat)
    requires total > 0
    ensures x * 100 < total ==> Ticks(x, total) == 1
    ensures x * 100 >= total ==> Ticks(x, total) * total <= x * 100 < (Ticks(x, total) + 1) * total
  {
    var m := x * 100;
    if x >= 0 {
      var q := m / total;
      var rem := m % total;
      assert q * total + rem == m && 0 <= rem < total;
      if m >= total {
        assert q >= 1;
        assert (q + 1) * total == q * total + total;
      } else {
        assert q == 0;
      }
    } else {
      var q := (-x) * 100 / total;
      assert q >= 0;
    }
  }

  /** `"[%s%s] %d/%d " % ("#" * current_ticks, " " * remaining_ticks, current, total)` */
  function Bar(current: nat, total: nat): string
    requires total > 0
  {
    var currentTicks := Ticks(current, total);
    var remainingTicks := Ticks(total - current, total);
    "[" + seq(currentTicks, _ => '#') + seq(remainingTicks, _ => ' ') + "] " +
    Decimal(current) + "/" + Decimal(total) + " "
  }

  /**
   * While the build is within its count the bar is 99 to 101 ticks wide,
   * and each side has at least one tick.
   */
  lemma BarTicks(current: nat, total: nat)
    requires 0 < total && current <= total
    ensures var done := Ticks(current, total);
            var left := Ticks(total - current, total);
            done >= 1 && left >= 1 && 99 <= done + left <= 101
  {
    var done := Ticks(current, total);
    var left := Ticks(total - current, total);
    var a := current * 100;
    var b := (total - current) * 100;
    assert a + b == 100 * total;
    TicksBounds(current, total);
    TicksBounds(total - current, total);
    if a < total {
      // `done` is one; `left` holds between 99 and 100 hundredths
      assert b > 99 * total;
      MulLess(99, left + 1, total);
      MulLess(left, 101, total);
    } else if b < total {
      assert a > 99 * total;
      MulLess(99, done + 1, total);
      MulLess(done, 101, total);
    } else {
      assert (done + left) * total == done * total + left * total;
      assert (done + left + 2) * total == (done + 1) * total + (left + 1) * total;
      MulLess(done + left, 101, total);
      MulLess(98, done + left, total) by {
        assert 98 * total < 100 * total;
      }
    }
  }

  lemma MulLess(x: int, y: int, t: int)
    requires t > 0 && x * t < y * t
    ensures x < y
  {
  }

  /** The shape of the bar: brackets, the ticks, then "current/total ". */
  lemma BarShape(current: nat, total: nat)
    requires total > 0
    ensures var bar := Bar(current, total);
            var n := Ticks(current, total) + Ticks(total - current, total);
            |bar| == n + |Decimal(current)| + |Decimal(total)| + 5 &&
            bar[0] == '[' && bar[n + 1..n + 3] == "] " &&
            (forall k :: 1 <= k <= Ticks(current, total) ==> bar[k] == '#') &&
            (forall k :: Ticks(current, total) < k <= n ==> bar[k] == ' ') &&
            bar[n + 3..] == Decimal(current) + "/" + Decimal(total) + " "
  {
  }

  // ---------------------------------------------------------------------
  // The loop of `compile_mvn`

  /** What the loop prints: a line as it is, a bar over the current line, or the final blank. */
  datatype Shown = Echo(text: string) | Progress(bar: string) | Blank(spaces: string)

  /** The loop's state: what it printed, whether the summary began, the widest bar. */
  datatype Build = Build(shown: seq<Shown>, summary: bool, biggest: nat)

  /** How the loop ends: after the last line, or raising ZeroDivisionError on a "[n/0]" counter. */
  datatype Run = Run(state: Build, zeroDivision: bool)

  const ReactorSummary: string := "[INFO] Reactor Summary:"
  const BuildResult: string := "[INFO] BUILD"
  const ErrorPrefix: string := "[ERROR]"

  /** `line.rstrip("\n")` */
  function RStripNewlines(s: string): (r: string)
    ensures |r| <= |s| && r == s[..|r|]
    ensures r == [] || r[|r| - 1] != '\n'
    ensures forall k :: |r| <= k < |s| ==> s[k] == '\n'
  {
    if s != [] && s[|s| - 1] == '\n' then RStripNewlines(s[..|s| - 1]) else s
  }

  /** One pass of the loop body; None when the division raises. */
  function ReadLine(st: Build, line: string): Option<Build>
  {
    var summary := st.summary || StartsWith(line, ReactorSummary) || StartsWith(line, BuildResult);
    var error := StartsWith(line, ErrorPrefix);
    if summary || error then Some(Build(st.shown + [Echo(RStripNewlines(line))], summary, st.biggest))
    else
      match Match(line)
      case None => Some(st)
      case Some((current, total)) =>
        if total == 0 then None
        else
          var bar := Bar(current, total);
          Some(Build(st.shown + [Progress(bar)], summary, if |bar| > st.biggest then |bar| else st.biggest))
  }

  /** The loop over Maven's output lines. */
  function Follow(st: Build, lines: seq<string>): Run
    decreases |lines|
  {
    if lines == [] then Run(st, false)
    else
      match ReadLine(st, lines[0])
      case None => Run(st, true)
      case Some(next) => Follow(next, lines[1..])
  }

  /** Everything `compile_mvn` prints: the loop, then, unless it raised, a blank as wide as the widest bar. */
  function Printed(lines: seq<string>): seq<Shown>
  {
    var run := Follow(Build([], false, 0), lines);
    run.state.shown + (if run.zeroDivision then [] else [Blank(seq(run.state.biggest, _ => ' '))])
  }

  /**
   * `compile_mvn`: the command it runs, and what it prints for the lines
   * Maven writes (the process itself is not modelled: its output lines are
   * the input here).
   */
  method CompileMvn(home: string, clean: bool, extraArgs: seq<string>, output: seq<string>)
    returns (command: string, shown: seq<Shown>, zeroDivision: bool)
    ensures command == MvnCmd(home, CompileArgs(clean, extraArgs))
    ensures zeroDivision == Follow(Build([], false, 0), output).zeroDivision
    ensures shown == Printed(output)
  {
    var mvnArgs := ["install", "-DskipTests"] + extraArgs;
    if clean {
      mvnArgs := ["clean"] + mvnArgs;
    }
    command := MvnCmd(home, mvnArgs);
    var summary := false;
    var biggestLine: nat := 0;
    shown := [];
    var j := 0;
    while j < |output|
      invariant 0 <= j <= |output|
      invariant Follow(Build([], false, 0), output) == Follow(Build(shown, summary, biggestLine), output[j..])
    {
      var line := output[j];
      assert output[j..][0] == line && output[j..][1..] == output[j + 1..];
      var match_ := Match(line);
      summary := summary || StartsWith(line, ReactorSummary) || StartsWith(line, BuildResult);
      var error := StartsWith(line, ErrorPrefix);
      if summary || error {
        shown := shown + [Echo(RStripNewlines(line))];
      } else if match_.Some? {
        var current := match_.value.0;
        var total := match_.value.1;
        if total == 0 {
          return command, shown, true;
        }
        var progress := Bar(current, total);
        biggestLine := if |progress| > biggestLine then |progress| else biggestLine;
        shown := shown + [Progress(progress)];
      }
      j := j + 1;
    }
    assert output[j..] == [];
    shown := shown + [Blank(seq(biggestLine, _ => ' '))];
    zeroDivision := false;
  }

  /** The echoed lines, newlines stripped. */
  function Echoes(lines: seq<string>): seq<Shown>
  {
    seq(|lines|, i requires 0 <= i < |lines| => Echo(RStripNewlines(lines[i])))
  }

  /** Following a concatenation of lines follows the first part, then, unless it raised, the second. */
  lemma {:induction false} FollowAppend(st: Build, a: seq<string>, b: seq<string>)
    ensures Follow(st, a + b) ==
            (if Follow(st, a).zeroDivision then Follow(st, a) else Follow(Follow(st, a).state, b))
    decreases |a|
  {
    if a == [] {
      assert a + b == b;
    } else {
      assert (a + b)[0] == a[0] && (a + b)[1..] == a[1..] + b;
      if ReadLine(st, a[0]).Some? {
        FollowAppend(ReadLine(st, a[0]).value, a[1..], b);
      }
    }
  }

  /**
   * Once the summary has begun every later line is echoed, no bar is drawn
   * and the widest bar stays as it was.
   */
  lemma {:induction false} SummarySticks(st: Build, lines: seq<string>)
    requires st.summary
    ensures Follow(st, lines) == Run(Build(st.shown + Echoes(lines), true, st.biggest), false)
    decreases |lines|
  {
    if lines != [] {
      var next := Build(st.shown + [Echo(RStripNewlines(lines[0]))], true, st.biggest);
      SummaryLine(st, lines[0]);
      SummarySticks(next, lines[1..]);
      EchoesCons(lines[0], lines[1..]);
      assert [lines[0]] + lines[1..] == lines;
    } else {
      assert st.shown + Echoes(lines) == st.shown;
    }
  }

  /**
   * In a build whose output up to a summary line raised nothing, that line
   * and every later one are printed as they are, after what came before.
   */
  lemma SummaryEchoesRest(before: seq<string>, line: string, after: seq<string>)
    requires StartsWith(line, ReactorSummary) || StartsWith(line, BuildResult)
    requires !Follow(Build([], false, 0), before).zeroDivision
    ensures var prior := Follow(Build([], false, 0), before).state;
            Follow(Build([], false, 0), before + [line] + after) ==
            Run(Build(prior.shown + Echoes([line] + after), true, prior.biggest), false)
  {
    var init := Build([], false, 0);
    var prior := Follow(init, before).state;
    assert before + [line] + after == before + ([line] + after);
    FollowAppend(init, before, [line] + after);
    var next := Build(prior.shown + [Echo(RStripNewlines(line))], true, prior.biggest);
    SummaryLine(prior, line);
    FollowCons(prior, line, after);
    SummarySticks(next, after);
    EchoesCons(line, after);
  }

  lemma EchoesCons(line: string, rest: seq<string>)
    ensures [Echo(RStripNewlines(line))] + Echoes(rest) == Echoes([line] + rest)
  {
  }

  /** A summary line, or any line once the summary began, is echoed. */
  lemma SummaryLine(st: Build, line: string)
    requires st.summary || StartsWith(line, ReactorSummary) || StartsWith(line, BuildResult)
    ensures ReadLine(st, line) == Some(Build(st.shown + [Echo(RStripNewlines(line))], true, st.biggest))
  {
  }

  lemma FollowCons(st: Build, line: string, rest: seq<string>)
    requires ReadLine(st, line).Some?
    ensures Follow(st, [line] + rest) == Follow(ReadLine(st, line).value, rest)
  {
    assert ([line] + rest)[0] == line && ([line] + rest)[1..] == rest;
  }

  /** `biggest` is the width of the widest bar drawn so far (zero before any). */
  ghost predicate Widest(st: Build)
  {
    (forall k :: 0 <= k < |st.shown| && st.shown[k].Progress? ==> |st.shown[k].bar| <= st.biggest) &&
    (st.biggest == 0 || exists k :: 0 <= k < |st.shown| && st.shown[k].Progress? && |st.shown[k].bar| == st.biggest)
  }

  lemma {:induction false} FollowKeepsWidest(st: Build, lines: seq<string>)
    requires Widest(st)
    ensures Widest(Follow(st, lines).state)
    decreases |lines|
  {
    if lines != [] {
      var next := ReadLine(st, lines[0]);
      if next.Some? {
        var n := next.value;
        assert forall k :: 0 <= k < |st.shown| ==> n.shown[k] == st.shown[k];
        if n.biggest != st.biggest {
          assert n.shown[|n.shown| - 1].Progress? && |n.shown[|n.shown| - 1].bar| == n.biggest;
        } else if st.biggest != 0 {
          var k :| 0 <= k < |st.shown| && st.shown[k].Progress? && |st.shown[k].bar| == st.biggest;
          assert n.shown[k] == st.shown[k];
        }
        FollowKeepsWidest(n, lines[1..]);
      }
    }
  }

  /**
   * The blank `compile_mvn` prints at the end is as wide as the widest bar
   * it drew, so it covers every bar, and no wider.
   */
  lemma BlankCoversBars(lines: seq<string>)
    ensures var printed := Printed(lines);
            !Follow(Build([], false, 0), lines).zeroDivision ==>
              printed[|printed| - 1].Blank? &&
              (forall k :: 0 <= k < |printed| && printed[k].Progress? ==> |printed[k].bar| <= |printed[|printed| - 1].spaces|) &&
              (|printed[|printed| - 1].spaces| == 0 ||
               exists k :: 0 <= k < |printed| && printed[k].Progress? && |printed[k].bar| == |printed[|printed| - 1].spaces|)
  {
    var init := Build([], false, 0);
    FollowKeepsWidest(init, lines);
    var run := Follow(init, lines);
    if !run.zeroDivision {
      var printed := Printed(lines);
      assert forall k :: 0 <= k < |run.state.shown| ==> printed[k] == run.state.shown[k];
      if run.state.biggest != 0 {
        var k :| 0 <= k < |run.state.shown| && run.state.shown[k].Progress? && |run.state.shown[k].bar| == run.state.biggest;
        assert printed[k] == run.state.shown[k];
      }
    }
  }

  /** A "[ERROR]" line is always printed as it is, never drawn as a bar. */
  lemma ErrorLineEchoed(st: Build, line: string)
    requires StartsWith(line, ErrorPrefix)
    ensures ReadLine(st, line).Some?
    ensures ReadLine(st, line).value.shown == st.shown + [Echo(RStripNewlines(line))]
    ensures ReadLine(st, line).value.biggest == st.biggest
  {
  }

  /**
   * A counter with a zero total, on a line that is neither summary nor
   * error, raises ZeroDivisionError and ends the loop with nothing more printed.
   */
  lemma ZeroTotalRaises(prefix: string, current: nat, rest: seq<string>)
    requires forall k :: 0 <= k < |prefix| ==> prefix[k] != '\n'
    requires !StartsWith(prefix + Counter(current, 0), ReactorSummary)
    requires !StartsWith(prefix + Counter(current, 0), BuildResult)
    requires !StartsWith(prefix + Counter(current, 0), ErrorPrefix)
    ensures Follow(Build([], false, 0), [prefix + Counter(current, 0)] + rest) == Run(Build([], false, 0), true)
  {
    MatchCounter(prefix, current, 0, "");
    assert prefix + Counter(current, 0) + "" == prefix + Counter(current, 0);
  }
}
