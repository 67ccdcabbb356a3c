/** Reading a process's output: line-end folding across reads. */
module OutputReading {
  import opened Strings

  const CRLF := "\r\n"

  /** The text handed on so far, the token being built and a carriage return held back
      make up the input with every CR LF replaced by LF. */
  ghost predicate Folded(input: string, emitted: seq<string>, token: string, skipLF: bool) {
    && Concat(emitted) + token + (if skipLF then "\r" else "") == FoldLines(input)
    && (skipLF <==> input != "" && input[|input| - 1] == '\r')
    && (forall i :: 0 <= i < |token| ==> token[i] != '\n')
    && (forall k :: 0 <= k < |emitted| ==> Line(emitted[k]))
  }

  /** A token: not empty, and a line feed at most as its last character. */
  ghost predicate Line(t: string) {
    t != "" && forall i :: 0 <= i < |t| - 1 ==> t[i] != '\n'
  }

  function FoldLines(s: string): string {
    if s == "" then ""
    else if |s| >= 2 && s[0] == '\r' && s[1] == '\n' then "\n" + FoldLines(s[2..])
    else [s[0]] + FoldLines(s[1..])
  }

  lemma {:induction false} FoldLinesIsReplace(s: string)
    ensures FoldLines(s) == Replace(s, CRLF, "\n")
    decreases |s|
  {
    if |s| >= 2 {
      assert s[..2] == CRLF <==> s[0] == '\r' && s[1] == '\n';
      FoldLinesIsReplace(s[2..]);
      FoldLinesIsReplace(s[1..]);
    } else if |s| == 1 {
      assert [s[0]] + FoldLines(s[1..]) == s;
    }
  }

  predicate EndsInCr(s: string) {
    s != "" && s[|s| - 1] == '\r'
  }

  lemma FoldShort(s: string, c: char)
    requires |s| <= 1
    ensures FoldLines(s + [c]) == if c == '\n' && EndsInCr(s) then "\n" else s + [c]
    ensures FoldLines(s) == s
  {
    if |s| == 1 {
      assert (s + [c])[1..] == [c] && (s + [c])[2..] == "" && [c][1..] == "" && s[1..] == "";
    } else {
      assert (s + [c])[1..] == "";
    }
  }

  /** The first step of the folding takes one character, or the two of a line end. */
  function FirstStep(s: string): nat
    requires |s| >= 2
  {
    if s[0] == '\r' && s[1] == '\n' then 2 else 1
  }

  lemma FoldFirst(s: string)
    requires |s| >= 2
    ensures FoldLines(s) == [if FirstStep(s) == 2 then '\n' else s[0]] + FoldLines(s[FirstStep(s)..])
  {
  }

  /** What folding one more character gives. */
  function Appended(s: string, c: char): string {
    if c == '\n' && EndsInCr(s) then FoldLines(s[..|s| - 1]) + "\n" else FoldLines(s) + [c]
  }

  /** The first step of the folding and the last character are apart: the former is as before. */
  lemma FoldAppendOther(s: string, c: char)
    requires |s| >= 2 && FoldLines(s[FirstStep(s)..] + [c]) == FoldLines(s[FirstStep(s)..]) + [c]
    ensures FoldLines(s + [c]) == FoldLines(s) + [c]
  {
    hide FoldLines;
    var t, skip := s + [c], FirstStep(s);
    assert FirstStep(t) == skip && t[0] == s[0] && t[skip..] == s[skip..] + [c];
    FoldFirst(s);
    FoldFirst(t);
  }

  lemma FoldAppendLf(s: string)
    requires |s| > 2
    requires var rest := s[FirstStep(s)..]; FoldLines(rest + "\n") == FoldLines(rest[..|rest| - 1]) + "\n"
    ensures FoldLines(s + "\n") == FoldLines(s[..|s| - 1]) + "\n"
  {
    hide FoldLines;
    var t, init, skip := s + "\n", s[..|s| - 1], FirstStep(s);
    assert FirstStep(t) == skip && t[0] == s[0] && t[skip..] == s[skip..] + "\n";
    assert FirstStep(init) == skip && init[0] == s[0] && init[skip..] == s[skip..][..|s[skip..]| - 1];
    FoldFirst(init);
    FoldFirst(t);
  }

  /** Two characters, the second a carriage return that a line feed now follows. */
  lemma FoldAppendShort(s: string)
    requires |s| == 2 && s[1] == '\r'
    ensures FoldLines(s + "\n") == Appended(s, '\n')
  {
    hide FoldLines;
    var t := s + "\n";
    FoldFirst(t);
    assert t[1..] == [s[1]] + "\n";
    FoldShort([s[1]], '\n');
    FoldShort([s[0]], '\n');
    assert s[..1] == [s[0]];
  }

  /** Folding one more character changes the result only at its end. */
  lemma {:induction false} FoldAppend(s: string, c: char)
    ensures FoldLines(s + [c]) == Appended(s, c)
    decreases |s|
  {
    if |s| <= 1 {
      FoldShort(s, c);
      FoldShort("", c);
      assert |s| == 1 ==> s[..0] == "";
    } else if c == '\n' && EndsInCr(s) && |s| == 2 {
      FoldAppendShort(s);
    } else {
      var rest := s[FirstStep(s)..];
      FoldAppend(rest, c);
      hide FoldLines;
      assert rest != "" ==> rest[|rest| - 1] == s[|s| - 1];
      if c == '\n' && EndsInCr(s) { FoldAppendLf(s); } else { FoldAppendOther(s, c); }
    }
  }

  /** A final carriage return is folded to itself. */
  lemma FoldFinalCr(s: string)
    requires EndsInCr(s)
    ensures FoldLines(s) == FoldLines(s[..|s| - 1]) + "\r"
  {
    hide FoldLines;
    var init := s[..|s| - 1];
    FoldAppend(init, '\r');
    assert init + ['\r'] == s;
  }

  /** What one character does to the token and the pending carriage return. */
  function NextToken(token: string, skipLF: bool, c: char): string {
    token + (if skipLF && c != '\n' then "\r" else "") + (if c == '\r' then "" else [c])
  }

  lemma FeedKeepsFolded(input: string, emitted: seq<string>, token: string, skipLF: bool, c: char)
    requires Folded(input, emitted, token, skipLF)
    ensures var next := NextToken(token, skipLF, c);
            if c == '\n' then Folded(input + [c], emitted + [next], "", false)
            else Folded(input + [c], emitted, next, c == '\r')
  {
    hide FoldLines, Concat;
    var next := NextToken(token, skipLF, c);
    FoldAppend(input, c);
    var held := if skipLF then "\r" else "";
    if c == '\n' {
      ConcatAppend(emitted, next);
      if skipLF {
        FoldFinalCr(input);
        Cancel(Concat(emitted) + token, FoldLines(input[..|input| - 1]), "\r");
      }
      assert Concat(emitted) + token + "\n" + "" == Concat(emitted) + next + "" + "";
    } else {
      assert Concat(emitted) + token + held + [c] == Concat(emitted) + next + (if c == '\r' then "\r" else "");
    }
  }

  lemma Cancel(a: string, b: string, tail: string)
    requires a + tail == b + tail
    ensures a == b
  {
    assert |a| == |b|;
    assert (a + tail)[..|a|] == a && (b + tail)[..|b|] == b;
  }

  lemma FlushKeepsFolded(input: string, emitted: seq<string>, token: string, skipLF: bool)
    requires Folded(input, emitted, token, skipLF) && token != ""
    ensures Folded(input, emitted + [token], "", skipLF)
  {
    ConcatAppend(emitted, token);
  }

  /** What a pass chunks: everything up to the first read that delivers nothing. */
  function Delivered(chunks: seq<string>): string {
    if chunks == [] || chunks[0] == "" then "" else chunks[0] + Delivered(chunks[1..])
  }

  lemma NothingDelivered()
    ensures Delivered([]) == ""
  {
  }

  lemma {:induction false} DeliveredAppend(chunks: seq<string>, k: nat)
    requires k < |chunks| && forall j :: 0 <= j <= k ==> chunks[j] != ""
    ensures Delivered(chunks[..k + 1]) == Delivered(chunks[..k]) + chunks[k]
    decreases k
  {
    var r := chunks[1..];
    assert chunks[..k + 1][1..] == r[..k];
    if k > 0 {
      assert chunks[..k][1..] == r[..k - 1];
      DeliveredAppend(r, k - 1);
    }
  }

  /** As long as every read delivers something, a pass takes it all. */
  lemma {:induction false} DeliveredIsAll(chunks: seq<string>)
    requires forall k :: 0 <= k < |chunks| ==> chunks[k] != ""
    ensures Delivered(chunks) == Concat(chunks)
    decreases |chunks|
  {
    if chunks != [] {
      var n := |chunks| - 1;
      DeliveredIsAll(chunks[..n]);
      DeliveredAppend(chunks, n);
      assert chunks[..n + 1] == chunks;
    }
  }

  lemma {:induction false} DeliveredStops(chunks: seq<string>, k: nat)
    requires k <= |chunks| && (forall j :: 0 <= j < k ==> chunks[j] != "") && (k < |chunks| ==> chunks[k] == "")
    ensures Delivered(chunks[..k]) == Delivered(chunks)
    decreases k
  {
    if k > 0 {
      assert chunks[..k][1..] == chunks[1..][..k - 1];
      DeliveredStops(chunks[1..], k - 1);
    }
  }

  datatype Rc = Done | ReadSome | ReadNone

  class ReadProcessThread {
    const myBuffer: array<char>
    var skipLF: bool
    var myIsProcessTerminated: bool
    var closed: bool
    /** Calls of textAvailable, and the characters read, in order. */
    var emitted: seq<string>
    ghost var input: string

    ghost predicate Valid()
      reads this
    {
      myBuffer.Length == 8192 && Folded(input, emitted, "", skipLF)
    }

    constructor ()
      ensures Valid() && fresh(myBuffer) && input == "" && emitted == [] && !myIsProcessTerminated && !closed
    {
      myBuffer := new char[8192];
      skipLF, myIsProcessTerminated, closed := false, false, false;
      emitted, input := [], "";
    }

    method SetProcessTerminated(b: bool)
      modifies `myIsProcessTerminated
      ensures myIsProcessTerminated == b
    {
      myIsProcessTerminated := b;
    }

    method Fill(chunk: string)
      requires |chunk| <= myBuffer.Length
      modifies myBuffer
      ensures myBuffer[..|chunk|] == chunk
    {
      forall i | 0 <= i < |chunk| { myBuffer[i] := chunk[i]; }
    }

    /** One pass; `chunks` are the results of the read calls made while the reader is ready. */
    method ReadAvailable(chunks: seq<string>) returns (rc: Rc)
      requires Valid() && forall k :: 0 <= k < |chunks| ==> |chunks[k]| <= 8192
      modifies this, myBuffer
      ensures Valid() && old(emitted) <= emitted
      ensures input == old(input) + Delivered(chunks)
      ensures myIsProcessTerminated == old(myIsProcessTerminated)
      ensures rc == if myIsProcessTerminated then Done
                    else if chunks == [] || chunks[0] == "" then ReadNone
                    else ReadSome
      ensures closed == (old(closed) || rc == Done)
    {
      hide Folded, Delivered;
      NothingDelivered();
      var token := "";
      rc := ReadNone;
      var k := 0;
      assert input + "" == input;
      while k < |chunks|
        invariant 0 <= k <= |chunks|
        invariant forall j :: 0 <= j < k ==> chunks[j] != ""
        invariant Folded(input, emitted, token, skipLF) && old(emitted) <= emitted
        invariant input == old(input) + Delivered(chunks[..k])
        invariant myIsProcessTerminated == old(myIsProcessTerminated) && closed == old(closed)
        invariant rc == if k == 0 then ReadNone else ReadSome
      {
        var n := |chunks[k]|;
        if n <= 0 {
          break;
        }
        Fill(chunks[k]);
        rc := ReadSome;
        token := Feed(token, n);
        assert myBuffer[..n] == chunks[k];
        DeliveredAppend(chunks, k);
        assert old(input) + Delivered(chunks[..k]) + chunks[k] == old(input) + (Delivered(chunks[..k]) + chunks[k]);
        k := k + 1;
      }
      DeliveredStops(chunks, k);
      if token != "" {
        FlushKeepsFolded(input, emitted, token, skipLF);
        emitted := emitted + [token];
      }
      if myIsProcessTerminated {
        closed := true;
        rc := Done;
      }
    }

    /** The loop over the characters of one read. */
    method Feed(token: string, n: nat) returns (next: string)
      requires Folded(input, emitted, token, skipLF) && n <= myBuffer.Length
      modifies this
      ensures Folded(input, emitted, next, skipLF) && old(emitted) <= emitted
      ensures input == old(input) + myBuffer[..n]
      ensures myIsProcessTerminated == old(myIsProcessTerminated) && closed == old(closed)
    {
      hide Folded;
      next := token;
      assert input + myBuffer[..0] == input;
      for i := 0 to n
        invariant Folded(input, emitted, next, skipLF) && old(emitted) <= emitted
        invariant input == old(input) + myBuffer[..i]
        invariant myIsProcessTerminated == old(myIsProcessTerminated) && closed == old(closed)
      {
        var c := myBuffer[i];
        FeedKeepsFolded(input, emitted, next, skipLF, c);
        ghost var fed := NextToken(next, skipLF, c);
        if skipLF && c != '\n' {
          next := next + "\r";
        }
        if c == '\r' {
          skipLF := true;
        } else {
          skipLF := false;
          next := next + [c];
        }
        assert next == fed;
        input := input + [c];
        assert myBuffer[..i + 1] == myBuffer[..i] + [c];
        if c == '\n' {
          emitted := emitted + [next];
          next := "";
        }
      }
    }
  }

  /** However the same characters were split into reads and passes, the same text came out. */
  lemma ChunkingDoesNotMatter(input: string, emitted1: seq<string>, skip1: bool, emitted2: seq<string>, skip2: bool)
    requires Folded(input, emitted1, "", skip1) && Folded(input, emitted2, "", skip2)
    ensures Concat(emitted1) == Concat(emitted2) && skip1 == skip2
  {
    hide FoldLines, Concat;
    var pending := if skip1 then "\r" else "";
    assert Concat(emitted1) + "" + pending == Concat(emitted1) + pending;
    assert Concat(emitted2) + "" + pending == Concat(emitted2) + pending;
    Cancel(Concat(emitted1), Concat(emitted2), pending);
  }

  /** What all passes together deliver. */
  function DeliveredByAll(passes: seq<seq<string>>): string {
    if passes == [] then "" else DeliveredByAll(passes[..|passes| - 1]) + Delivered(passes[|passes| - 1])
  }

  /** The reader's loop: passes until one that finds the flag, which another thread sets before pass
      number `flagAt`. The text handed on is what the passes up to that one delivered, with every
      CR LF replaced by LF, but for a final carriage return. */
  method ReadAll(passes: seq<seq<string>>, flagAt: nat) returns (emitted: seq<string>, finished: bool)
    requires forall p :: p in passes ==> forall k :: 0 <= k < |p| ==> |p[k]| <= 8192
    ensures finished <==> flagAt < |passes|
    ensures var input := DeliveredByAll(if finished then passes[..flagAt + 1] else passes);
            Concat(emitted) + (if EndsInCr(input) then "\r" else "") == Replace(input, CRLF, "\n")
    ensures forall k :: 0 <= k < |emitted| ==> Line(emitted[k])
  {
    hide FoldLines, Concat, Folded, Delivered, Replace;
    var reader := new ReadProcessThread();
    finished := false;
    var i := 0;
    while i < |passes| && !finished
      invariant 0 <= i <= |passes| && fresh(reader) && fresh(reader.myBuffer)
      invariant reader.Valid() && reader.input == DeliveredByAll(passes[..i])
      invariant reader.myIsProcessTerminated == finished == (i > flagAt) && i <= flagAt + 1
      decreases |passes| - i
    {
      if i == flagAt {
        reader.SetProcessTerminated(true);
      }
      assert passes[..i + 1][..i] == passes[..i] && passes[i] in passes;
      var rc := reader.ReadAvailable(passes[i]);
      finished := rc == Done;
      i := i + 1;
    }
    assert passes[..|passes|] == passes;
    emitted := reader.emitted;
    WhatFoldedMeans(reader.input, emitted, reader.skipLF);
  }

  lemma WhatFoldedMeans(input: string, emitted: seq<string>, skipLF: bool)
    requires Folded(input, emitted, "", skipLF)
    ensures Concat(emitted) + (if EndsInCr(input) then "\r" else "") == Replace(input, CRLF, "\n")
    ensures forall k :: 0 <= k < |emitted| ==> Line(emitted[k])
  {
    hide FoldLines, Concat, Replace;
    FoldLinesIsReplace(input);
    assert Concat(emitted) + "" == Concat(emitted);
  }
}
