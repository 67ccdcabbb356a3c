/** Splitting a command into arguments, and the quoting it undoes. */
module CommandLine {
  import opened Options
  import opened Sequences
  import opened Strings

  /** The variables of the splitting loop. */
  datatype Scan = Scan(result: seq<string>, insideQuotes: bool, word: string)

  function Flush(s: Scan): seq<string> {
    if s.word != "" then s.result + [s.word] else s.result
  }

  function ScanStep(command: string, i: nat, s: Scan): Scan
    requires i < |command|
  {
    var c := command[i];
    if c == '"' && (i == 0 || command[i - 1] != '\\') then s.(insideQuotes := !s.insideQuotes)
    else if c == ' ' && !s.insideQuotes then Scan(Flush(s), false, "")
    else if c != '\\' || i >= |command| - 1 || command[i + 1] != '"' then s.(word := s.word + [c])
    else s
  }

  function Scanned(command: string, i: nat): Scan
    requires i <= |command|
  {
    if i == 0 then Scan([], false, "") else ScanStep(command, i - 1, Scanned(command, i - 1))
  }

  function Split(command: string): seq<string> {
    Flush(Scanned(command, |command|))
  }

  method SplitCommandInParts(command: string) returns (result: seq<string>)
    ensures result == Split(command)
  {
    result := [];
    var insideQuotes := false;
    var sb := "";
    var i := 0;
    while i < |command|
      invariant 0 <= i <= |command|
      invariant Scan(result, insideQuotes, sb) == Scanned(command, i)
    {
      var currentChar := command[i];
      if currentChar == '"' && (i == 0 || command[i - 1] != '\\') {
        insideQuotes := !insideQuotes;
      } else if currentChar == ' ' && !insideQuotes {
        if |sb| > 0 {
          result := result + [sb];
          sb := "";
        }
      } else if currentChar != '\\' || (i >= |command| - 1 || command[i + 1] != '"') {
        sb := sb + [currentChar];
      }
      i := i + 1;
    }
    if |sb| > 0 {
      result := result + [sb];
    }
  }

  /** JavaLauncher.protect. */
  function Protect(arg: string): string {
    if ' ' in arg then "\"" + arg + "\"" else arg
  }

  /** The protected arguments, joined by single spaces. */
  function CommandOf(args: seq<string>): string {
    if args == [] then ""
    else if |args| == 1 then Protect(args[0])
    else CommandOf(args[..|args| - 1]) + " " + Protect(args[|args| - 1])
  }

  /** What an argument must be like to survive: not empty, no quote in it, and no backslash
      at the end of one that has to be quoted. */
  predicate Survives(arg: string) {
    arg != "" && '"' !in arg && (' ' in arg ==> arg[|arg| - 1] != '\\')
  }

  // ---- from surviving arguments to the same arguments

  /** A stretch of the command that holds characters of a word, quoted or without spaces. */
  lemma {:induction false} WordIsRead(command: string, k: nat, w: string, result: seq<string>, inside: bool)
    requires k + |w| <= |command| && command[k..k + |w|] == w
    requires Scanned(command, k) == Scan(result, inside, "")
    requires '"' !in w && (inside || ' ' !in w)
    requires w != "" && k + |w| < |command| && command[k + |w|] == '"' ==> w[|w| - 1] != '\\'
    ensures Scanned(command, k + |w|) == Scan(result, inside, w)
    decreases |w|
  {
    if w != "" {
      var n := |w| - 1;
      assert command[k + n] == w[n];
      assert command[k..k + n] == w[..n];
      assert w[n] in w;
      WordIsRead(command, k, w[..n], result, inside);
      assert w == w[..n] + [w[n]];
    }
  }

  lemma ArgumentIsRead(command: string, k: nat, arg: string, result: seq<string>)
    requires Survives(arg)
    requires var q := Protect(arg); k + |q| <= |command| && command[k..k + |q|] == q
    requires k == 0 || command[k - 1] == ' '
    requires var end := k + |Protect(arg)|; end == |command| || command[end] == ' '
    requires Scanned(command, k) == Scan(result, false, "")
    ensures Scanned(command, k + |Protect(arg)|) == Scan(result, false, arg)
  {
    var q := Protect(arg);
    if ' ' in arg {
      QuotesToggle(command, k, arg, result);
    } else {
      WordIsRead(command, k, arg, result, false);
    }
  }

  /** Where the quotes and the characters of a quoted argument stand. */
  lemma QuotedPlaces(command: string, k: nat, arg: string)
    requires arg != "" && k + |arg| + 2 <= |command| && command[k..k + |arg| + 2] == "\"" + arg + "\""
    ensures command[k] == '"' && command[k + 1 + |arg|] == '"' && command[k + |arg|] == arg[|arg| - 1]
    ensures command[k + 1..k + 1 + |arg|] == arg
  {
    var q := "\"" + arg + "\"";
    assert forall j :: 0 <= j < |q| ==> command[k + j] == q[j];
    assert q[|arg|] == arg[|arg| - 1] && q[1 + |arg|] == '"';
    SliceOfSlice(command, k, q, 1, 1 + |arg|);
    assert q[1..1 + |arg|] == arg;
  }

  lemma OpeningQuote(command: string, k: nat, result: seq<string>)
    requires k < |command| && command[k] == '"' && (k == 0 || command[k - 1] == ' ')
    requires Scanned(command, k) == Scan(result, false, "")
    ensures Scanned(command, k + 1) == Scan(result, true, "")
  {
  }

  lemma QuotesToggle(command: string, k: nat, arg: string, result: seq<string>)
    requires Survives(arg) && ' ' in arg
    requires var q := "\"" + arg + "\""; k + |q| <= |command| && command[k..k + |q|] == q
    requires (k == 0 || command[k - 1] == ' ') && Scanned(command, k) == Scan(result, false, "")
    ensures Scanned(command, k + |arg| + 2) == Scan(result, false, arg)
  {
    hide Scanned, ScanStep;
    QuotedPlaces(command, k, arg);
    OpeningQuote(command, k, result);
    WordIsRead(command, k + 1, arg, result, true);
    ClosingQuote(command, k + 1 + |arg|, Scan(result, true, arg));
  }

  lemma ClosingQuote(command: string, i: nat, s: Scan)
    requires 0 < i < |command| && command[i] == '"' && command[i - 1] != '\\' && Scanned(command, i) == s
    ensures Scanned(command, i + 1) == s.(insideQuotes := !s.insideQuotes)
  {
  }

  lemma {:induction false} CommandPrefix(args: seq<string>, k: nat)
    requires 1 <= k <= |args|
    ensures |CommandOf(args[..k])| <= |CommandOf(args)|
    ensures CommandOf(args)[..|CommandOf(args[..k])|] == CommandOf(args[..k])
    ensures k < |args| ==> |CommandOf(args[..k])| < |CommandOf(args)| && CommandOf(args)[|CommandOf(args[..k])|] == ' '
    decreases |args|
  {
    hide Protect;
    if k == |args| {
      assert args[..k] == args;
    } else {
      var init := args[..|args| - 1];
      CommandPrefix(init, k);
      assert init[..k] == args[..k];
    }
  }

  /** From the end of one argument over the space to the end of the next. */
  lemma NextArgumentIsRead(command: string, gap: nat, result: seq<string>, word: string, arg: string)
    requires Survives(arg) && gap < |command| && command[gap] == ' ' && word != ""
    requires Scanned(command, gap) == Scan(result, false, word)
    requires gap + 1 + |Protect(arg)| <= |command| && command[gap + 1..gap + 1 + |Protect(arg)|] == Protect(arg)
    requires var end := gap + 1 + |Protect(arg)|; end == |command| || command[end] == ' '
    ensures Scanned(command, gap + 1 + |Protect(arg)|) == Scan(result + [word], false, arg)
  {
    assert Scanned(command, gap + 1) == Scan(result + [word], false, "");
    hide Scanned;
    ArgumentIsRead(command, gap + 1, arg, result + [word]);
  }

  lemma FirstArgumentIsRead(command: string, arg: string)
    requires Survives(arg) && |Protect(arg)| <= |command| && command[..|Protect(arg)|] == Protect(arg)
    requires var end := |Protect(arg)|; end == |command| || command[end] == ' '
    ensures Scanned(command, |Protect(arg)|) == Scan([], false, arg)
  {
    assert command[0..0 + |Protect(arg)|] == Protect(arg);
    ArgumentIsRead(command, 0, arg, []);
  }

  lemma CommandGrows(args: seq<string>, k: nat)
    requires 1 <= k <= |args|
    ensures CommandOf(args[..k]) ==
            if k == 1 then Protect(args[0]) else CommandOf(args[..k - 1]) + " " + Protect(args[k - 1])
  {
    assert args[..k][..k - 1] == args[..k - 1];
  }

  lemma {:induction false} ArgumentsAreRead(args: seq<string>, k: nat)
    requires 1 <= k <= |args| && forall a :: a in args ==> Survives(a)
    ensures |CommandOf(args[..k])| <= |CommandOf(args)|
    ensures Scanned(CommandOf(args), |CommandOf(args[..k])|) == Scan(args[..k - 1], false, args[k - 1])
    decreases k
  {
    hide Scanned, ScanStep, CommandOf, Protect;
    var command, arg, done := CommandOf(args), args[k - 1], CommandOf(args[..k]);
    CommandPrefix(args, k);
    CommandGrows(args, k);
    if k == |args| { assert args[..k] == args; }
    assert arg in args && (k >= 2 ==> args[k - 2] in args);
    if k == 1 {
      FirstArgumentIsRead(command, arg);
    } else {
      ArgumentsAreRead(args, k - 1);
      CommandPrefix(args, k - 1);
      NextInCommand(args, k);
      assert args[..k - 2] + [args[k - 2]] == args[..k - 1];
      hide Survives;
      NextArgumentIsRead(command, |CommandOf(args[..k - 1])|, args[..k - 2], args[k - 2], arg);
    }
  }

  /** Where the next argument stands. */
  lemma NextInCommand(args: seq<string>, k: nat)
    requires 2 <= k <= |args|
    ensures var command, gap, q := CommandOf(args), |CommandOf(args[..k - 1])|, Protect(args[k - 1]);
            && gap + 1 + |q| == |CommandOf(args[..k])| <= |command|
            && command[gap + 1..gap + 1 + |q|] == q
  {
    hide CommandOf, Protect;
    var command, q, done := CommandOf(args), Protect(args[k - 1]), CommandOf(args[..k]);
    var gap := |CommandOf(args[..k - 1])|;
    CommandPrefix(args, k);
    CommandGrows(args, k);
    SliceOfSlice(command, 0, done, gap + 1, gap + 1 + |q|);
    assert done[gap + 1..] == q;
  }

  lemma NothingScanned(command: string)
    ensures Scanned(command, 0) == Scan([], false, "")
  {
  }

  lemma NoArguments()
    ensures CommandOf([]) == ""
  {
  }

  lemma SplitUndoesProtect(args: seq<string>)
    requires forall a :: a in args ==> Survives(a)
    ensures Split(CommandOf(args)) == args
  {
    hide Scanned, CommandOf;
    if args == [] {
      assert CommandOf(args) == "" by { NoArguments(); }
      NothingScanned("");
    } else {
      ArgumentsAreRead(args, |args|);
      assert args[..|args|] == args && args[|args| - 1] in args;
      assert args[..|args| - 1] + [args[|args| - 1]] == args;
    }
  }

  // ---- and only from those: no backslash may be lost

  function Count(c: char, s: string): nat {
    if s == "" then 0 else Count(c, s[..|s| - 1]) + if s[|s| - 1] == c then 1 else 0
  }

  lemma {:induction false} CountConcat(c: char, a: string, b: string)
    ensures Count(c, a + b) == Count(c, a) + Count(c, b)
    decreases |b|
  {
    if b == "" {
      assert a + b == a;
    } else {
      assert (a + b)[..|a + b| - 1] == a + b[..|b| - 1];
      CountConcat(c, a, b[..|b| - 1]);
    }
  }

  /** Backslashes in front of a quote: the scan drops exactly these. */
  function Dropped(command: string, i: nat): nat
    requires i <= |command|
  {
    if i == 0 then 0
    else Dropped(command, i - 1) + if command[i - 1] == '\\' && i < |command| && command[i] == '"' then 1 else 0
  }

  function Content(s: Scan): string {
    Concat(s.result) + s.word
  }

  lemma FlushKeepsContent(s: Scan)
    ensures Concat(Flush(s)) == Content(s)
  {
    if s.word != "" { ConcatAppend(s.result, s.word); } else { assert Content(s) == Concat(s.result); }
  }

  lemma WordGrows(s: Scan, c: char)
    ensures Count('\\', Content(s.(word := s.word + [c]))) == Count('\\', Content(s)) + if c == '\\' then 1 else 0
  {
    hide Count, Concat;
    assert Content(s.(word := s.word + [c])) == Content(s) + [c];
    CountConcat('\\', Content(s), [c]);
    CountOne('\\', c);
  }

  lemma StepKeepsBackslashes(command: string, i: nat, s: Scan)
    requires i < |command|
    ensures Count('\\', Content(ScanStep(command, i, s))) + Dropped(command, i + 1) - Dropped(command, i) ==
            Count('\\', Content(s)) + if command[i] == '\\' then 1 else 0
  {
    hide Count, Concat;
    FlushKeepsContent(s);
    assert Concat(Flush(s)) + "" == Concat(Flush(s));
    WordGrows(s, command[i]);
  }

  lemma {:induction false} BackslashesAreKept(command: string, i: nat)
    requires i <= |command|
    ensures Count('\\', Content(Scanned(command, i))) + Dropped(command, i) == Count('\\', command[..i])
    decreases i
  {
    hide ScanStep;
    if i == 0 {
      assert Content(Scan([], false, "")) == "";
    } else {
      BackslashesAreKept(command, i - 1);
      StepKeepsBackslashes(command, i - 1, Scanned(command, i - 1));
      hide Count, Dropped;
      assert command[..i] == command[..i - 1] + [command[i - 1]];
      CountConcat('\\', command[..i - 1], [command[i - 1]]);
      CountOne('\\', command[i - 1]);
    }
  }

  lemma CountOne(c: char, d: char)
    ensures Count(c, [d]) == if c == d then 1 else 0
  {
    assert [d][..0] == "";
  }

  lemma {:induction false} NothingDropped(command: string, i: nat, n: nat)
    requires i < n <= |command| && Dropped(command, n) == 0
    ensures !(command[i] == '\\' && i + 1 < |command| && command[i + 1] == '"')
    decreases n
  {
    if i < n - 1 { NothingDropped(command, i, n - 1); }
  }

  /** If no backslash stands in front of a quote, no quote gets into a word. */
  lemma {:induction false} QuotesAreDropped(command: string, i: nat)
    requires i <= |command| && Dropped(command, |command|) == 0
    ensures '"' !in Content(Scanned(command, i))
    decreases i
  {
    if i > 0 {
      QuotesAreDropped(command, i - 1);
      var before, s := Scanned(command, i - 1), Scanned(command, i);
      if i > 1 { NothingDropped(command, i - 2, |command|); }
      if s.result != before.result { FlushKeepsContent(before); }
    }
  }

  lemma {:induction false} PartsAreNotEmpty(command: string, i: nat)
    requires i <= |command|
    ensures forall p :: p in Scanned(command, i).result ==> p != ""
    decreases i
  {
    if i > 0 { PartsAreNotEmpty(command, i - 1); }
  }

  lemma {:induction false} ArgumentStandsInCommand(args: seq<string>, k: nat) returns (at: nat)
    requires k < |args|
    ensures at + |Protect(args[k])| <= |CommandOf(args)|
    ensures CommandOf(args)[at..at + |Protect(args[k])|] == Protect(args[k])
    decreases |args|
  {
    if |args| == 1 {
      at := 0;
    } else if k == |args| - 1 {
      at := |CommandOf(args[..k])| + 1;
    } else {
      at := ArgumentStandsInCommand(args[..|args| - 1], k);
      assert CommandOf(args)[..|CommandOf(args[..|args| - 1])|] == CommandOf(args[..|args| - 1]);
      assert CommandOf(args[..|args| - 1])[at..at + |Protect(args[k])|] == CommandOf(args)[at..at + |Protect(args[k])|];
    }
  }

  lemma {:induction false} CommandCount(args: seq<string>)
    ensures Count('\\', CommandOf(args)) == Count('\\', Concat(args))
    decreases |args|
  {
    if args != [] {
      var init, last := args[..|args| - 1], args[|args| - 1];
      CommandCount(init);
      ProtectCount(last);
      CountConcat('\\', Concat(init), last);
      if |args| > 1 {
        CountConcat('\\', CommandOf(init) + " ", Protect(last));
        CountConcat('\\', CommandOf(init), [' ']);
        CountOne('\\', ' ');
      } else {
        assert Concat(init) == "" && Concat(args) == last;
      }
    }
  }

  lemma ProtectCount(arg: string)
    ensures Count('\\', Protect(arg)) == Count('\\', arg)
  {
    CountConcat('\\', ['"'], arg);
    CountConcat('\\', ['"'] + arg, ['"']);
    CountOne('\\', '"');
  }

  lemma {:induction false} MemberOfConcat(parts: seq<string>, k: nat, c: char)
    requires k < |parts| && c in parts[k]
    ensures c in Concat(parts)
    decreases |parts|
  {
    if k < |parts| - 1 { MemberOfConcat(parts[..|parts| - 1], k, c); }
  }

  /** On any input every part has at least one character. */
  lemma SplitHasNoEmptyPart(command: string)
    ensures forall p :: p in Split(command) ==> p != ""
  {
    PartsAreNotEmpty(command, |command|);
  }

  lemma OnlySurvivorsComeBack(args: seq<string>)
    requires Split(CommandOf(args)) == args
    ensures forall a :: a in args ==> Survives(a)
  {
    hide Scanned, ScanStep, CommandOf, Count, Dropped, Concat, Flush, Protect;
    var command := CommandOf(args);
    var end := Scanned(command, |command|);
    FlushKeepsContent(end);
    BackslashesAreKept(command, |command|);
    assert command[..|command|] == command;
    CommandCount(args);
    QuotesAreDropped(command, |command|);
    SplitHasNoEmptyPart(command);
    assert Dropped(command, |command|) == 0 && '"' !in Concat(args);
    forall a | a in args ensures Survives(a) {
      var k :| 0 <= k < |args| && args[k] == a;
      if '"' in a { MemberOfConcat(args, k, '"'); }
      if ' ' in a && a != "" && a[|a| - 1] == '\\' { NoLostBackslash(args, k); }
    }
  }

  /** The closing quote of an argument does not follow a backslash if none was dropped. */
  lemma NoLostBackslash(args: seq<string>, k: nat)
    requires k < |args| && ' ' in args[k] && Dropped(CommandOf(args), |CommandOf(args)|) == 0
    ensures args[k][|args[k]| - 1] != '\\'
  {
    hide CommandOf, Dropped;
    var command, a, q := CommandOf(args), args[k], Protect(args[k]);
    var at := ArgumentStandsInCommand(args, k);
    assert q[|a|] == a[|a| - 1] && q[|a| + 1] == '"';
    assert command[at..at + |q|][|a|] == command[at + |a|] && command[at..at + |q|][|a| + 1] == command[at + |a| + 1];
    NothingDropped(command, at + |a|, |command|);
  }

  /** Splitting undoes quoting, for exactly the lists of arguments that survive it. */
  lemma SplittingUndoesQuoting(args: seq<string>)
    ensures Split(CommandOf(args)) == args <==> forall a :: a in args ==> Survives(a)
  {
    if Split(CommandOf(args)) == args { OnlySurvivorsComeBack(args); }
    if forall a :: a in args ==> Survives(a) { SplitUndoesProtect(args); }
  }

  /** What becomes of a quoted argument that ends in a backslash: the backslash is dropped, and the
      closing quote becomes a character of the argument. */
  lemma QuoteAfterBackslashIsKept(arg: string)
    requires '"' !in arg && ' ' in arg && arg[|arg| - 1] == '\\'
    ensures Split(CommandOf([arg])) == [arg[..|arg| - 1] + "\""]
  {
    hide Scanned, ScanStep;
    var command, n := Protect(arg), |arg|;
    var word := arg[..n - 1];
    QuotedPlaces(command, 0, arg);
    NothingScanned(command);
    OpeningQuote(command, 0, []);
    assert command[1..1 + n][..n - 1] == command[1..n] == word;
    WordIsRead(command, 1, word, [], true);
    DroppedBackslash(command, n, word);
    assert Scanned(command, n + 2) == Scan([], true, word + "\"");
    assert [] + [word + "\""] == [word + "\""];
  }

  lemma DroppedBackslash(command: string, i: nat, word: string)
    requires 0 < i && i + 2 == |command| && command[i] == '\\' && command[i + 1] == '"'
    requires Scanned(command, i) == Scan([], true, word)
    ensures Scanned(command, i + 2) == Scan([], true, word + "\"")
  {
    assert Scanned(command, i + 1) == Scan([], true, word);
  }

  /** A Windows directory with a space in it does not come back. */
  lemma DirectoryDoesNotComeBack()
    ensures Split(CommandOf(["C:\\Program Files\\"])) == ["C:\\Program Files\""]
  {
    var arg := "C:\\Program Files\\";
    assert arg[10] == ' ';
    hide Split, CommandOf;
    QuoteAfterBackslashIsKept(arg);
    assert arg[..|arg| - 1] + "\"" == "C:\\Program Files\"";
  }

  // ---- what splitting means for any command

  /** A quote that no backslash stands before. */
  predicate IsQuote(command: string, i: nat)
    requires i < |command|
  {
    command[i] == '"' && (i > 0 ==> command[i - 1] != '\\')
  }

  function Quotes(command: string, i: nat): nat
    requires i <= |command|
  {
    if i == 0 then 0 else Quotes(command, i - 1) + if IsQuote(command, i - 1) then 1 else 0
  }

  /** A space with an even number of quotes before it. */
  predicate Separates(command: string, i: nat)
    requires i < |command|
  {
    command[i] == ' ' && Quotes(command, i) % 2 == 0
  }

  /** The characters without the quotes and the backslashes in front of quotes. */
  function Unquoted(command: string, i: nat): string
    requires i <= |command|
  {
    if i == 0 then ""
    else
      Unquoted(command, i - 1)
      + if IsQuote(command, i - 1) || (command[i - 1] == '\\' && i < |command| && command[i] == '"') then ""
        else [command[i - 1]]
  }

  lemma {:induction false} InsideIsOdd(command: string, i: nat)
    requires i <= |command|
    ensures Scanned(command, i).insideQuotes <==> Quotes(command, i) % 2 == 1
    decreases i
  {
    if i > 0 { InsideIsOdd(command, i - 1); }
  }

  lemma {:induction false} OneWordScanned(command: string, i: nat)
    requires i <= |command| && forall j: nat :: j < i ==> !Separates(command, j)
    ensures Scanned(command, i).result == [] && Scanned(command, i).word == Unquoted(command, i)
    decreases i
  {
    if i > 0 {
      OneWordScanned(command, i - 1);
      InsideIsOdd(command, i - 1);
      assert !Separates(command, i - 1);
    }
  }

  /** Without a separating space there is one part at most, of all that is not quoting. */
  lemma SplitIsOneWord(command: string)
    requires forall i: nat :: i < |command| ==> !Separates(command, i)
    ensures Split(command) == if Unquoted(command, |command|) == "" then [] else [Unquoted(command, |command|)]
  {
    hide Scanned, Unquoted, Separates;
    OneWordScanned(command, |command|);
  }

  /** In front of a space nothing depends on what follows it. */
  lemma {:induction false} ScannedBefore(command: string, i: nat, j: nat)
    requires j <= i < |command| && command[i] == ' '
    ensures Scanned(command[..i], j) == Scanned(command, j)
    decreases j
  {
    if j > 0 { ScannedBefore(command, i, j - 1); }
  }

  /** Behind a separating space the scan starts anew. */
  lemma {:induction false} ScannedBehind(command: string, i: nat, j: nat)
    requires i < |command| && Separates(command, i) && j <= |command| - i - 1
    ensures var s, rest := Scanned(command, i + 1 + j), Scanned(command[i + 1..], j);
            s == rest.(result := Split(command[..i]) + rest.result)
    decreases j
  {
    if j == 0 {
      InsideIsOdd(command, i);
      ScannedBefore(command, i, i);
    } else {
      ScannedBehind(command, i, j - 1);
      var c := command[i + 1..];
      assert c[j - 1] == command[i + j] && (j >= 2 ==> c[j - 2] == command[i + j - 1]);
      assert j < |c| ==> c[j] == command[i + 1 + j];
      hide Scanned, Split;
      BehindStep(command, i, j, Scanned(command, i + j), Scanned(c, j - 1), Split(command[..i]));
      ScannedNext(command, i + 1 + j);
      ScannedNext(c, j);
    }
  }

  lemma ScannedNext(command: string, i: nat)
    requires 0 < i <= |command|
    ensures Scanned(command, i) == ScanStep(command, i - 1, Scanned(command, i - 1))
  {
  }

  lemma BehindStep(command: string, i: nat, j: nat, s: Scan, rest: Scan, parts: seq<string>)
    requires 0 < j && i + j < |command| && command[i] == ' '
    requires s == rest.(result := parts + rest.result)
    ensures var c := command[i + 1..];
            var next := ScanStep(c, j - 1, rest);
            ScanStep(command, i + j, s) == next.(result := parts + next.result)
  {
    assert parts + (rest.result + [rest.word]) == parts + rest.result + [rest.word];
  }

  /** A separating space splits the command in two that are split by themselves. */
  lemma SplitAtSeparator(command: string, i: nat)
    requires i < |command| && Separates(command, i)
    ensures Split(command) == Split(command[..i]) + Split(command[i + 1..])
  {
    var rest := command[i + 1..];
    ScannedBehind(command, i, |rest|);
    hide Scanned;
    var s := Scanned(rest, |rest|);
    assert Split(command[..i]) + (s.result + [s.word]) == Split(command[..i]) + s.result + [s.word];
  }

  // ---- the builder

  /** StringUtils.isEmpty: null, or nothing but characters up to the space. */
  predicate Blank(s: Option<string>) {
    s.Some? ==> forall i :: 0 <= i < |s.value| ==> s.value[i] <= ' '
  }

  /** The parts of a command that has a character above the space. */
  function Appended(command: Option<string>): seq<string> {
    if command.Some? && exists i :: 0 <= i < |command.value| && command.value[i] > ' ' then Split(command.value) else []
  }

  class ProcessHandlerBuilder {
    var myCommandLine: seq<string>

    constructor ()
      ensures myCommandLine == []
    {
      myCommandLine := [];
    }

    method Append(command: Option<string>)
      modifies this
      ensures myCommandLine == old(myCommandLine) + Appended(command)
    {
      if !Blank(command) {
        var parts := SplitCommandInParts(command.value);
        var i := 0;
        while i < |parts|
          invariant 0 <= i <= |parts|
          invariant myCommandLine == old(myCommandLine) + parts[..i]
        {
          myCommandLine := myCommandLine + [parts[i]];
          i := i + 1;
        }
      }
    }

    method AppendKey(key: Option<string>, parameter: Option<string>)
      modifies this
      ensures myCommandLine == old(myCommandLine) +
                               if && key.Some? && (exists i :: 0 <= i < |key.value| && key.value[i] > ' ')
                                  && parameter.Some?
                                  && exists i :: 0 <= i < |parameter.value| && parameter.value[i] > ' '
                               then Split("-" + key.value) + Split(parameter.value)
                               else []
    {
      if !Blank(key) && !Blank(parameter) {
        assert ("-" + key.value)[0] == '-';
        Append(Some("-" + key.value));
        Append(parameter);
      }
    }
  }

  /** Appending one protected argument adds exactly that argument, unless it does not survive
      the quoting or is a blank that needs no quotes. */
  lemma AppendAddsOnePart(arg: string)
    ensures Appended(Some(Protect(arg))) == [arg] <==>
            Survives(arg) && (' ' in arg || exists i :: 0 <= i < |arg| && arg[i] > ' ')
  {
    SplittingUndoesQuoting([arg]);
    assert CommandOf([arg]) == Protect(arg);
    if ' ' in arg { assert Protect(arg)[0] == '"'; }
    assert arg in [arg];
  }
}
