/** Tokens for remote callers: short codes, the persisted token list and its cache. */
module RemoteSecurity {
  import opened Options
  import opened Sequences
  import opened Strings

  const MAX_TOKENS_COUNT := 100
  const MAX_FAILED_ATTEMPTS := 3
  // the longest value java.util.prefs.Preferences.put accepts
  const MAX_VALUE_LENGTH := 8192

  // ---- the persisted form

  /** StringUtils.isNotEmpty: something is left after trimming. */
  predicate NotBlank(s: string) {
    exists i :: 0 <= i < |s| && s[i] > ' '
  }

  /** A token that can be stored: no bar, and some character above the space. */
  predicate Good(token: string) {
    (exists i :: 0 <= i < |token| && token[i] > ' ') && forall i :: 0 <= i < |token| ==> token[i] != '|'
  }

  function Joined(tokens: seq<string>): string {
    Join(tokens, "|")
  }

  function DropTrailingEmpty(fields: seq<string>): seq<string> {
    if fields != [] && fields[|fields| - 1] == "" then DropTrailingEmpty(fields[..|fields| - 1]) else fields
  }

  /** String.split at the bars: the whole string if there is none, else no empty fields at the end. */
  function SplitAtBars(s: string): seq<string> {
    if '|' in s then DropTrailingEmpty(Pieces(s, '|')) else [s]
  }

  function Keep(fields: seq<string>): seq<string> {
    if fields == [] then []
    else Keep(fields[..|fields| - 1]) + if NotBlank(fields[|fields| - 1]) then [fields[|fields| - 1]] else []
  }

  function Parse(s: string): seq<string> {
    Keep(Pieces(s, '|'))
  }

  lemma {:induction false} KeepConcat(a: seq<string>, b: seq<string>)
    ensures Keep(a + b) == Keep(a) + Keep(b)
    decreases |b|
  {
    if b == [] {
      assert a + b == a;
    } else {
      assert (a + b)[..|a + b| - 1] == a + b[..|b| - 1];
      KeepConcat(a, b[..|b| - 1]);
    }
  }

  lemma {:induction false} KeepDropsTrailing(fields: seq<string>)
    ensures Keep(DropTrailingEmpty(fields)) == Keep(fields)
    decreases |fields|
  {
    if fields != [] && fields[|fields| - 1] == "" { KeepDropsTrailing(fields[..|fields| - 1]); }
  }

  lemma SplitIsParse(s: string)
    ensures Keep(SplitAtBars(s)) == Parse(s)
  {
    KeepDropsTrailing(Pieces(s, '|'));
    if '|' !in s { OnePiece(s, '|'); }
  }

  lemma ParseAcrossBar(a: string, b: string)
    ensures Parse(a + "|" + b) == Parse(a) + Parse(b)
  {
    PiecesAcross(a, '|', b);
    KeepConcat(Pieces(a, '|'), Pieces(b, '|'));
  }

  /** The tokens that each string of a list parses to, in order. */
  function ParseEach(tokens: seq<string>): seq<string> {
    if tokens == [] then [] else ParseEach(tokens[..|tokens| - 1]) + Parse(tokens[|tokens| - 1])
  }

  lemma NothingParsed()
    ensures Parse("") == []
  {
  }

  lemma {:induction false} ParseOfJoin(tokens: seq<string>)
    ensures Parse(Joined(tokens)) == ParseEach(tokens)
    decreases |tokens|
  {
    if tokens == [] {
      NothingParsed();
    } else if |tokens| == 1 {
      assert ParseEach(tokens[..0]) == [];
    } else {
      ParseOfJoin(tokens[..|tokens| - 1]);
      ParseAcrossBar(Joined(tokens[..|tokens| - 1]), tokens[|tokens| - 1]);
    }
  }

  lemma GoodParses(token: string)
    requires Good(token)
    ensures Parse(token) == [token]
  {
    OnePiece(token, '|');
    hide Pieces;
    assert [token][..0] == [] && Keep([]) == [];
  }

  lemma {:induction false} GoodParseEach(tokens: seq<string>)
    requires forall t :: t in tokens ==> Good(t)
    ensures ParseEach(tokens) == tokens
    decreases |tokens|
  {
    hide Parse;
    if tokens != [] {
      GoodParseEach(tokens[..|tokens| - 1]);
      GoodParses(tokens[|tokens| - 1]);
      assert tokens[..|tokens| - 1] + [tokens[|tokens| - 1]] == tokens;
    }
  }

  lemma {:induction false} KeptAreFields(fields: seq<string>)
    ensures forall f :: f in Keep(fields) <==> f in fields && NotBlank(f)
    decreases |fields|
  {
    if fields != [] {
      KeptAreFields(fields[..|fields| - 1]);
      assert fields == fields[..|fields| - 1] + [fields[|fields| - 1]];
    }
  }

  /** What is read from a stored string: the texts that stand there between bars and are not blank. */
  lemma ParsedStand(s: string, token: string)
    ensures token in Parse(s) <==> Stands(s, '|', token) && exists i :: 0 <= i < |token| && token[i] > ' '
  {
    hide Pieces, Stands, Keep;
    PiecesStand(s, '|', token);
    KeptAreFields(Pieces(s, '|'));
  }

  /** Whatever is stored, what is read are tokens without a bar that are not blank. */
  lemma ParsedAreGood(s: string)
    ensures forall t :: t in Parse(s) ==> Good(t)
  {
    PiecesAreFree(s, '|');
    KeptAreFields(Pieces(s, '|'));
  }

  /** Storing and reading gives the list back for exactly the lists of good tokens. */
  lemma ParseUndoesJoin(tokens: seq<string>)
    ensures Parse(Joined(tokens)) == tokens <==> forall t :: t in tokens ==> Good(t)
  {
    ParsedAreGood(Joined(tokens));
    ParseOfJoin(tokens);
    if forall t :: t in tokens ==> Good(t) { GoodParseEach(tokens); }
  }

  lemma BlankIsDropped(s: string)
    requires !NotBlank(s) && '|' !in s
    ensures Parse(s) == []
  {
    OnePiece(s, '|');
    hide Pieces;
    assert [s][..0] == [] && Keep([]) == [];
  }

  /** A token with a bar comes back as two, a blank one not at all. */
  lemma BadTokensDoNotComeBack()
    ensures Parse(Joined(["a|b"])) == ["a", "b"] && Parse(Joined([" ", "c"])) == ["c"]
  {
    hide Parse, Pieces, Keep;
    assert "a"[0] > ' ' && "b"[0] > ' ' && "c"[0] > ' ';
    GoodParses("a");
    GoodParses("b");
    GoodParses("c");
    BlankIsDropped(" ");
    assert "a" + "|" + "b" == "a|b";
    ParseAcrossBar("a", "b");
    assert [" ", "c"][..1] == [" "] && Joined([" ", "c"]) == " " + "|" + "c";
    ParseAcrossBar(" ", "c");
  }

  // ---- the manager's state and operations

  datatype Store = Store(prefs: string, cache: Option<seq<string>>, pending: map<string, string>,
                         failedAttempts: int, forcePause: bool)

  /** The random parts of createNewTokenAndGetShortCode are in its operation; syncs says whether
      the preferences can be written back. */
  datatype Op =
    | Create(code: string, token: string)
    | Obtain(code: string, syncs: bool)
    | AddToken(token: string, syncs: bool)
    | ClearAll(syncs: bool)
    | Validate(token: string)

  datatype Outcome =
    | Issued
    | Redeemed(token: string)
    | InvalidShortCode
    | TooManyFailedAttempts
    | Answer(valid: bool)
    | Stored
    | StoreFailed

  function Tokens(s: Store): seq<string> {
    if s.cache.Some? then s.cache.value else Parse(s.prefs)
  }

  function Loaded(s: Store): Store {
    s.(cache := Some(Tokens(s)))
  }

  function Evict(tokens: seq<string>): seq<string> {
    if |tokens| > MAX_TOKENS_COUNT then tokens[1..] else tokens
  }

  function Added(tokens: seq<string>, token: string): seq<string> {
    Evict(if token in tokens then tokens else tokens + [token])
  }

  predicate Fits(tokens: seq<string>) {
    |Joined(tokens)| <= MAX_VALUE_LENGTH
  }

  /** put refuses a value that is too long before anything changes; a failing sync comes after. */
  function Persisted(s: Store, tokens: seq<string>): Store {
    if Fits(tokens) then s.(prefs := Joined(tokens), cache := None) else s
  }

  function StoreOutcome(tokens: seq<string>, syncs: bool): Outcome {
    if Fits(tokens) && syncs then Stored else StoreFailed
  }

  function Next(s: Store, op: Op): Store {
    match op
    case Create(code, token) => s.(forcePause := false, pending := s.pending[code := token])
    case Obtain(code, syncs) =>
      if code !in s.pending then
        if s.failedAttempts + 1 > MAX_FAILED_ATTEMPTS
        then s.(failedAttempts := 0, pending := map[], forcePause := true)
        else s.(failedAttempts := s.failedAttempts + 1)
      else
        var next := Persisted(Loaded(s.(pending := s.pending - {code})), Added(Tokens(s), s.pending[code]));
        if OutcomeOf(s, op) == StoreFailed then next else next.(cache := None)
    case AddToken(token, _) => Persisted(Loaded(s), Added(Tokens(s), token))
    case ClearAll(_) => Persisted(s, [])
    case Validate(_) => Loaded(s)
  }

  function OutcomeOf(s: Store, op: Op): Outcome {
    match op
    case Create(_, _) => Issued
    case Obtain(code, syncs) =>
      if code !in s.pending then
        if s.failedAttempts + 1 > MAX_FAILED_ATTEMPTS then TooManyFailedAttempts else InvalidShortCode
      else if StoreOutcome(Added(Tokens(s), s.pending[code]), syncs).Stored? then Redeemed(s.pending[code])
      else StoreFailed
    case AddToken(token, syncs) => StoreOutcome(Added(Tokens(s), token), syncs)
    case ClearAll(syncs) => StoreOutcome([], syncs)
    case Validate(token) => Answer(token in Tokens(s))
  }

  function Run(s: Store, ops: seq<Op>): Store {
    if ops == [] then s else Next(Run(s, ops[..|ops| - 1]), ops[|ops| - 1])
  }

  // ---- what every run keeps

  /** The cache is absent or what the stored string parses to; the counter is in range. */
  predicate Inv(s: Store) {
    && (s.cache.Some? ==> s.cache.value == Parse(s.prefs))
    && 0 <= s.failedAttempts <= MAX_FAILED_ATTEMPTS
  }

  /** The stored list: in its joined form, without duplicates and not too long. */
  ghost predicate Tidy(s: Store) {
    && s.prefs == Joined(Tokens(s))
    && Distinct(Tokens(s)) && |Tokens(s)| <= MAX_TOKENS_COUNT
    && forall c :: c in s.pending ==> Good(s.pending[c])
  }

  predicate GoodOp(op: Op) {
    match op
    case Create(_, token) => Good(token)
    case AddToken(token, _) => Good(token)
    case _ => true
  }

  lemma StepKeepsInv(s: Store, op: Op)
    requires Inv(s)
    ensures Inv(Next(s, op))
  {
    hide Parse, Joined, Added;
  }

  lemma {:induction false} RunKeepsInv(s: Store, ops: seq<Op>)
    requires Inv(s)
    ensures Inv(Run(s, ops)) && Tokens(Run(s, ops)) == Parse(Run(s, ops).prefs)
    ensures forall t :: t in Tokens(Run(s, ops)) ==> Good(t)
    decreases |ops|
  {
    hide Parse, Next;
    if ops != [] {
      RunKeepsInv(s, ops[..|ops| - 1]);
      StepKeepsInv(Run(s, ops[..|ops| - 1]), ops[|ops| - 1]);
    }
    ParsedAreGood(Run(s, ops).prefs);
  }

  lemma AddedIsDistinct(tokens: seq<string>, token: string)
    requires Distinct(tokens) && |tokens| <= MAX_TOKENS_COUNT
    ensures Distinct(Added(tokens, token)) && |Added(tokens, token)| <= MAX_TOKENS_COUNT
    ensures token in Added(tokens, token)
  {
    var more := if token in tokens then tokens else tokens + [token];
    assert more[|more| - 1] == token || token in tokens;
    if |more| > MAX_TOKENS_COUNT { assert more[1..][|more| - 2] == token; }
  }

  /** Adding a token to the stored list gives the list with it, and the oldest dropped beyond the
      limit, exactly when the token is good; a failing write-back changes nothing of that. */
  lemma AddIsFaithful(s: Store, token: string)
    requires Inv(s) && Fits(Added(Tokens(s), token))
    ensures Parse(Persisted(s, Added(Tokens(s), token)).prefs) == Added(Tokens(s), token) <==> Good(token)
  {
    hide Parse, Joined;
    var tokens := Tokens(s);
    ParsedAreGood(s.prefs);
    ParseUndoesJoin(Added(tokens, token));
    if !Good(token) {
      var more := tokens + [token];
      assert Added(tokens, token)[|Added(tokens, token)| - 1] == token;
    }
  }

  lemma StoringKeepsTidy(s: Store, tokens: seq<string>)
    requires Tidy(s) && Distinct(tokens) && |tokens| <= MAX_TOKENS_COUNT && forall t :: t in tokens ==> Good(t)
    ensures Tidy(Persisted(s, tokens))
    ensures Fits(tokens) ==> Tokens(Persisted(s, tokens)) == tokens
  {
    hide Parse, Joined;
    ParseUndoesJoin(tokens);
  }

  lemma StepKeepsTidy(s: Store, op: Op)
    requires Inv(s) && Tidy(s) && GoodOp(op)
    ensures Tidy(Next(s, op))
  {
    hide Parse, Joined, Good, Added, Distinct;
    ParsedAreGood(s.prefs);
    match op
    case Create(_, _) =>
    case Obtain(code, syncs) =>
      if code in s.pending {
        var token, less := s.pending[code], s.(pending := s.pending - {code});
        AddedIsDistinct(Tokens(s), token);
        AddedAreGood(Tokens(s), token);
        assert Tidy(Loaded(less));
        StoringKeepsTidy(Loaded(less), Added(Tokens(s), token));
        var next := Persisted(Loaded(less), Added(Tokens(s), token));
        assert Tokens(next) == Tokens(next.(cache := None));
      }
    case AddToken(token, _) =>
      AddedIsDistinct(Tokens(s), token);
      AddedAreGood(Tokens(s), token);
      assert Tidy(Loaded(s));
      StoringKeepsTidy(Loaded(s), Added(Tokens(s), token));
    case ClearAll(_) =>
      NothingIsDistinct();
      StoringKeepsTidy(s, []);
    case Validate(_) =>
  }

  lemma NothingIsDistinct()
    ensures Distinct<string>([])
  {
  }

  lemma AddedAreGood(tokens: seq<string>, token: string)
    requires Good(token) && forall t :: t in tokens ==> Good(t)
    ensures forall t :: t in Added(tokens, token) ==> Good(t)
  {
  }

  /** From a tidy store and with good tokens every reachable store is tidy. */
  lemma {:induction false} RunKeepsTidy(s: Store, ops: seq<Op>)
    requires Inv(s) && Tidy(s) && forall op :: op in ops ==> GoodOp(op)
    ensures Tidy(Run(s, ops))
    decreases |ops|
  {
    hide Tidy, Inv, GoodOp, Next;
    if ops != [] {
      RunKeepsTidy(s, ops[..|ops| - 1]);
      RunKeepsInv(s, ops[..|ops| - 1]);
      StepKeepsTidy(Run(s, ops[..|ops| - 1]), ops[|ops| - 1]);
    }
  }

  // ---- failed attempts

  predicate Missed(s: Store, op: Op) {
    op.Obtain? && op.code !in s.pending
  }

  function Misses(s: Store, ops: seq<Op>): nat {
    if ops == [] then 0
    else
      var init := ops[..|ops| - 1];
      Misses(s, init) + if Missed(Run(s, init), ops[|ops| - 1]) then 1 else 0
  }

  /** The counter after a number of misses. */
  function CounterAfter(start: int, misses: nat): int {
    (start + misses) % 4
  }

  lemma OneMoreMiss(start: int, misses: nat)
    ensures 0 <= start <= MAX_FAILED_ATTEMPTS ==> CounterAfter(start, 0) == start
    ensures CounterAfter(start, misses + 1) ==
            if CounterAfter(start, misses) + 1 > MAX_FAILED_ATTEMPTS then 0 else CounterAfter(start, misses) + 1
  {
  }

  lemma MissMovesCounter(s: Store, op: Op)
    ensures Next(s, op).failedAttempts ==
            if !Missed(s, op) then s.failedAttempts
            else if s.failedAttempts + 1 > MAX_FAILED_ATTEMPTS then 0
            else s.failedAttempts + 1
  {
    hide Tokens, Joined, Added;
  }

  lemma LastMiss(s: Store, ops: seq<Op>)
    requires ops != []
    ensures Misses(s, ops) == Misses(s, ops[..|ops| - 1]) +
                              if Missed(Run(s, ops[..|ops| - 1]), ops[|ops| - 1]) then 1 else 0
  {
  }

  /** Successes never reset the counter: it counts the misses, starting over at every fourth. */
  lemma {:induction false} CounterCountsMisses(s: Store, ops: seq<Op>)
    requires Inv(s)
    ensures Run(s, ops).failedAttempts == CounterAfter(s.failedAttempts, Misses(s, ops))
    decreases |ops|
  {
    hide Next, Missed, CounterAfter;
    OneMoreMiss(s.failedAttempts, 0);
    if ops != [] {
      var init := ops[..|ops| - 1];
      CounterCountsMisses(s, init);
      RunKeepsInv(s, init);
      MissMovesCounter(Run(s, init), ops[|ops| - 1]);
      hide Run, Misses;
      LastMiss(s, ops);
      LastStep(s, ops);
      OneMoreMiss(s.failedAttempts, Misses(s, init));
    }
  }

  /** Every fourth miss, and nothing else, is answered with too many attempts and drops all codes. */
  lemma LockoutAtEveryFourthMiss(s: Store, ops: seq<Op>, op: Op)
    requires Inv(s)
    ensures OutcomeOf(Run(s, ops), op) == TooManyFailedAttempts <==>
            Missed(Run(s, ops), op) && CounterAfter(s.failedAttempts, Misses(s, ops) + 1) == 0
    ensures OutcomeOf(Run(s, ops), op) == TooManyFailedAttempts ==> Next(Run(s, ops), op).pending == map[]
  {
    hide Parse, Joined, Added, Evict, Run;
    CounterCountsMisses(s, ops);
    OneMoreMiss(s.failedAttempts, Misses(s, ops));
  }

  ghost predicate NoneCreated(ops: seq<Op>, start: nat) {
    forall j :: start <= j < |ops| ==> !ops[j].Create?
  }

  /** Operation number i is a lockout, and no code was made after it. */
  ghost predicate LockedSince(s: Store, ops: seq<Op>, i: nat) {
    i < |ops| && OutcomeOf(Run(s, ops[..i]), ops[i]) == TooManyFailedAttempts && NoneCreated(ops, i + 1)
  }

  /** The pause before the next code is due exactly if a lockout came after the last code was made. */
  lemma {:induction false} PauseAfterLockout(s: Store, ops: seq<Op>)
    ensures Run(s, ops).forcePause <==>
            (s.forcePause && NoneCreated(ops, 0)) || exists i: nat :: LockedSince(s, ops, i)
    decreases |ops|
  {
    hide Next, OutcomeOf, Run, NoneCreated, LockedSince;
    if ops == [] {
      NothingLocked(s);
    } else {
      var n := |ops| - 1;
      var init, now := ops[..n], Run(s, ops[..n]);
      PauseAfterLockout(s, init);
      StepPauses(now, ops[n]);
      LastStep(s, ops);
      CreatedBefore(ops, 0);
      forall i: nat
        ensures LockedSince(s, ops, i) <==>
                if i == n then OutcomeOf(now, ops[n]) == TooManyFailedAttempts
                else LockedSince(s, init, i) && !ops[n].Create?
      {
        LockedBefore(s, ops, i);
      }
      CreateIsNoLockout(now, ops[n]);
      if OutcomeOf(now, ops[n]) == TooManyFailedAttempts { assert LockedSince(s, ops, n); }
      if i: nat :| LockedSince(s, init, i) {
        LockedIsBefore(s, init, i);
        assert !ops[n].Create? ==> LockedSince(s, ops, i);
      }
    }
  }

  lemma LockedIsBefore(s: Store, ops: seq<Op>, i: nat)
    requires LockedSince(s, ops, i)
    ensures i < |ops|
  {
  }

  lemma NothingLocked(s: Store)
    ensures Run(s, []) == s && NoneCreated([], 0) && forall i: nat :: !LockedSince(s, [], i)
  {
  }

  lemma CreateIsNoLockout(s: Store, op: Op)
    ensures op.Create? ==> OutcomeOf(s, op) != TooManyFailedAttempts
  {
  }

  lemma LockedBefore(s: Store, ops: seq<Op>, i: nat)
    requires ops != []
    ensures LockedSince(s, ops, i) <==>
            if i == |ops| - 1 then OutcomeOf(Run(s, ops[..i]), ops[i]) == TooManyFailedAttempts
            else LockedSince(s, ops[..|ops| - 1], i) && !ops[|ops| - 1].Create?
  {
    if i < |ops| - 1 {
      assert ops[..|ops| - 1][..i] == ops[..i];
      CreatedBefore(ops, i + 1);
      hide NoneCreated;
    }
    hide OutcomeOf, Run;
  }

  lemma CreatedBefore(ops: seq<Op>, start: nat)
    requires start < |ops|
    ensures NoneCreated(ops, start) <==> NoneCreated(ops[..|ops| - 1], start) && !ops[|ops| - 1].Create?
  {
  }

  lemma StepPauses(s: Store, op: Op)
    ensures Next(s, op).forcePause <==>
            !op.Create? && (s.forcePause || OutcomeOf(s, op) == TooManyFailedAttempts)
  {
    hide Parse, Joined, Added;
  }

  // ---- short codes

  predicate Consumes(s: Store, op: Op, code: string) {
    op.Obtain? && op.code == code && code in s.pending
  }

  predicate CreatesCode(op: Op, code: string) {
    op.Create? && op.code == code
  }

  function Redemptions(s: Store, ops: seq<Op>, code: string): nat {
    if ops == [] then 0
    else
      var init := ops[..|ops| - 1];
      Redemptions(s, init, code) + if Consumes(Run(s, init), ops[|ops| - 1], code) then 1 else 0
  }

  function Creations(ops: seq<Op>, code: string): nat {
    if ops == [] then 0
    else Creations(ops[..|ops| - 1], code) + if CreatesCode(ops[|ops| - 1], code) then 1 else 0
  }

  function Pending(s: Store, code: string): nat {
    if code in s.pending then 1 else 0
  }

  /** A code is redeemed at most as often as it was issued, and a pending one has an issue to spare. */
  lemma {:induction false} RedeemedAtMostAsIssued(s: Store, ops: seq<Op>, code: string)
    ensures Redemptions(s, ops, code) + Pending(Run(s, ops), code) <= Creations(ops, code) + Pending(s, code)
    decreases |ops|
  {
    hide Tokens, Added, Joined;
    if ops != [] { RedeemedAtMostAsIssued(s, ops[..|ops| - 1], code); }
  }

  /** Whether an operation touches a code: issues it, consumes it or drops all codes. */
  predicate Touches(s: Store, op: Op, code: string) {
    CreatesCode(op, code) || Consumes(s, op, code) || OutcomeOf(s, op) == TooManyFailedAttempts
  }

  lemma StepOnCode(s: Store, op: Op, code: string)
    ensures !Touches(s, op, code) ==>
              (code in Next(s, op).pending <==> code in s.pending) &&
              (code in s.pending ==> Next(s, op).pending[code] == s.pending[code])
    ensures Touches(s, op, code) ==>
              (code in Next(s, op).pending <==> CreatesCode(op, code)) &&
              (CreatesCode(op, code) ==> Next(s, op).pending[code] == op.token)
  {
    hide Tokens, Added, Joined;
  }

  /** What a code stands for: the token of its last issue, if nothing touched the code since. */
  ghost predicate IssuedAt(s: Store, ops: seq<Op>, code: string, token: string, i: nat) {
    && i < |ops| && ops[i] == Create(code, token)
    && forall j :: i < j < |ops| ==> !Touches(Run(s, ops[..j]), ops[j], code)
  }

  lemma {:induction false} PendingWasIssued(s: Store, ops: seq<Op>, code: string) returns (i: nat)
    requires code !in s.pending && code in Run(s, ops).pending
    ensures IssuedAt(s, ops, code, Run(s, ops).pending[code], i)
    decreases |ops|
  {
    hide Next, Touches;
    var n := |ops| - 1;
    var init := ops[..n];
    StepOnCode(Run(s, init), ops[n], code);
    if Touches(Run(s, init), ops[n], code) {
      i := n;
    } else {
      i := PendingWasIssued(s, init, code);
      forall j | i < j < |ops| ensures !Touches(Run(s, ops[..j]), ops[j], code) {
        assert j < n ==> init[..j] == ops[..j];
      }
    }
  }

  lemma {:induction false} IssuedIsPending(s: Store, ops: seq<Op>, code: string, token: string, i: nat)
    requires IssuedAt(s, ops, code, token, i)
    ensures code in Run(s, ops).pending && Run(s, ops).pending[code] == token
    decreases |ops|
  {
    hide Next, Touches;
    var n := |ops| - 1;
    var init := ops[..n];
    StepOnCode(Run(s, init), ops[n], code);
    if i == n {
      CreateTouches(Run(s, init), ops[n], code);
    } else {
      assert !Touches(Run(s, ops[..n]), ops[n], code);
      forall j | i < j < n ensures !Touches(Run(s, init[..j]), init[j], code) {
        assert init[..j] == ops[..j];
      }
      IssuedIsPending(s, init, code, token, i);
    }
  }

  lemma CreateTouches(s: Store, op: Op, code: string)
    requires CreatesCode(op, code)
    ensures Touches(s, op, code)
  {
  }

  /** Asking for a code's token finds it exactly if the code was issued and neither asked for,
      issued again nor dropped since; the token is the one of that issue. */
  lemma CodesStandForTheirLastIssue(s: Store, ops: seq<Op>, code: string, token: string)
    requires code !in s.pending
    ensures code in Run(s, ops).pending && Run(s, ops).pending[code] == token <==>
            exists i :: IssuedAt(s, ops, code, token, i)
  {
    hide Run, IssuedAt;
    if code in Run(s, ops).pending && Run(s, ops).pending[code] == token {
      var i := PendingWasIssued(s, ops, code);
    }
    if i :| IssuedAt(s, ops, code, token, i) { IssuedIsPending(s, ops, code, token, i); }
  }

  // ---- the list is the newest of all additions

  function Newest(history: seq<string>): seq<string> {
    if |history| > 100 then history[|history| - 100..] else history
  }

  /** The token that an operation stores. */
  function TokenOf(s: Store, op: Op): Option<string> {
    match op
    case AddToken(token, _) => Some(token)
    case Obtain(code, _) => if code in s.pending then Some(s.pending[code]) else None
    case _ => None
  }

  /** All additions since the last clearing: a token that is listed is not added again, and one that
      would make the stored string too long not at all. */
  function History(s: Store, ops: seq<Op>): seq<string> {
    if ops == [] then Parse(s.prefs)
    else
      var init, op := ops[..|ops| - 1], ops[|ops| - 1];
      var history, token := History(s, init), TokenOf(Run(s, init), op);
      if op.ClearAll? then []
      else if token.Some? && token.value !in Newest(history)
              && |Join(Newest(history + [token.value]), "|")| <= 8192
      then history + [token.value]
      else history
  }

  lemma NewestGrows(history: seq<string>, token: string)
    requires token !in Newest(history)
    ensures Added(Newest(history), token) == Newest(history + [token])
  {
  }

  lemma NewestStays(history: seq<string>, token: string)
    requires token in Newest(history)
    ensures Added(Newest(history), token) == Newest(history)
  {
  }

  lemma TokensAfter(s: Store, op: Op)
    requires Inv(s) && Tidy(s) && GoodOp(op)
    ensures Tokens(Next(s, op)) ==
            if op.ClearAll? then []
            else if TokenOf(s, op).Some? && Fits(Added(Tokens(s), TokenOf(s, op).value))
            then Added(Tokens(s), TokenOf(s, op).value)
            else Tokens(s)
  {
    hide Parse, Joined, Good, Added, Distinct;
    ParsedAreGood(s.prefs);
    var token := TokenOf(s, op);
    if token.Some? {
      AddedAreGood(Tokens(s), token.value);
      ParseUndoesJoin(Added(Tokens(s), token.value));
    }
    if op.ClearAll? {
      ParseUndoesJoin([]);
      NothingFits();
    }
  }

  lemma NothingFits()
    ensures Fits([])
  {
  }

  /** The listed tokens are the newest hundred additions: the oldest go first. */
  lemma {:induction false} TokensAreTheNewest(s: Store, ops: seq<Op>)
    requires Inv(s) && Tidy(s) && forall op :: op in ops ==> GoodOp(op)
    ensures Tokens(Run(s, ops)) == Newest(History(s, ops))
    decreases |ops|
  {
    if ops != [] {
      var init, op := ops[..|ops| - 1], ops[|ops| - 1];
      TokensAreTheNewest(s, init);
      RunKeepsInv(s, init);
      RunKeepsTidy(s, init);
      var now, history := Run(s, init), History(s, init);
      hide Run, Next, Tokens, Fits, Added, Newest, Inv, Tidy, GoodOp, TokenOf;
      assert Tokens(now) == Newest(history);
      TokensAfter(now, op);
      var token := TokenOf(now, op);
      if token.Some? {
        if token.value in Tokens(now) { NewestStays(history, token.value); }
        else {
          NewestGrows(history, token.value);
          FitsMeans(Newest(history + [token.value]));
        }
      }
      NewestOfNothing();
      LastStep(s, ops);
    }
  }

  lemma FitsMeans(tokens: seq<string>)
    ensures Fits(tokens) <==> |Join(tokens, "|")| <= 8192
  {
  }

  lemma NewestOfNothing()
    ensures Newest([]) == []
  {
  }

  lemma LastStep(s: Store, ops: seq<Op>)
    requires ops != []
    ensures Run(s, ops) == Next(Run(s, ops[..|ops| - 1]), ops[|ops| - 1])
  {
  }

  /** A token is valid, at any time in any run, exactly if it stands in the stored string between
      bars and is not blank. */
  lemma ValidateAnswers(s: Store, ops: seq<Op>, token: string)
    requires Inv(s)
    ensures OutcomeOf(Run(s, ops), Validate(token)) ==
            Answer(Stands(Run(s, ops).prefs, '|', token) && exists i :: 0 <= i < |token| && token[i] > ' ')
  {
    hide Run, Inv, Parse, Stands;
    RunKeepsInv(s, ops);
    ParsedStand(Run(s, ops).prefs, token);
  }

  /** From a tidy store and with good tokens: exactly if it is one of the newest hundred additions. */
  lemma ValidTokensAreTheNewest(s: Store, ops: seq<Op>, token: string)
    requires Inv(s) && Tidy(s) && forall op :: op in ops ==> GoodOp(op)
    ensures OutcomeOf(Run(s, ops), Validate(token)) == Answer(token in Newest(History(s, ops)))
  {
    hide Run, Inv, Tidy, GoodOp, Tokens, Newest;
    TokensAreTheNewest(s, ops);
  }

  lemma TidyIsDistinct(s: Store)
    requires Tidy(s)
    ensures Distinct(Tokens(s)) && |Tokens(s)| <= MAX_TOKENS_COUNT
  {
  }

  /** A token that was stored is answered to be valid right after, if it is good and was not the
      first of an overlong list; one that is not good never is. */
  lemma ValidAfterAdd(s: Store, token: string, syncs: bool)
    requires Inv(s) && Fits(Added(Tokens(s), token))
    ensures OutcomeOf(Next(s, AddToken(token, syncs)), Validate(token)) ==
            Answer(Good(token) && token in Added(Tokens(s), token))
    ensures Tidy(s) ==> token in Added(Tokens(s), token)
  {
    hide Parse, Joined, Added, Distinct, Good, Fits, Tidy;
    var next := Next(s, AddToken(token, syncs));
    AddIsFaithful(s, token);
    if Tidy(s) { TidyIsDistinct(s); AddedIsDistinct(Tokens(s), token); }
    ParsedAreGood(next.prefs);
  }

  /** Asking for the token of a code hands one out exactly if the code has an issue that stands, the
      list with its token can be stored and the preferences can be written back; it is the token of
      that issue, and a good one is valid from then on. */
  lemma RedeemedIsTheIssued(s: Store, ops: seq<Op>, code: string, syncs: bool, token: string)
    requires Inv(s) && code !in s.pending
    ensures OutcomeOf(Run(s, ops), Obtain(code, syncs)) == Redeemed(token) <==>
            (exists i :: IssuedAt(s, ops, code, token, i)) && syncs && Fits(Added(Tokens(Run(s, ops)), token))
    ensures OutcomeOf(Run(s, ops), Obtain(code, syncs)) == Redeemed(token) && Good(token)
              && token in Added(Tokens(Run(s, ops)), token) ==>
            OutcomeOf(Next(Run(s, ops), Obtain(code, syncs)), Validate(token)) == Answer(true)
  {
    hide Run, IssuedAt, Inv, Parse, Added, Joined, Good;
    CodesStandForTheirLastIssue(s, ops, code, token);
    RunKeepsInv(s, ops);
    var now := Run(s, ops);
    if OutcomeOf(now, Obtain(code, syncs)) == Redeemed(token) && Good(token) { AddIsFaithful(now, token); }
  }

  // ---- the class

  class ColtRemoteSecurityManager {
    var preferences: string
    var shortCodeToToken: map<string, string>
    var tokensCache: Option<seq<string>>
    var failedAttempts: int
    var forcePause: bool

    ghost function Value(): Store
      reads this
    {
      Store(preferences, tokensCache, shortCodeToToken, failedAttempts, forcePause)
    }

    constructor (stored: string)
      ensures Value() == Store(stored, None, map[], 0, false)
    {
      preferences, tokensCache, shortCodeToToken, failedAttempts, forcePause := stored, None, map[], 0, false;
    }

    method ObtainAuthToken(shortCode: string, syncs: bool) returns (outcome: Outcome)
      modifies this
      ensures Value() == Next(old(Value()), Obtain(shortCode, syncs))
      ensures outcome == OutcomeOf(old(Value()), Obtain(shortCode, syncs))
    {
      hide Parse, Joined;
      if shortCode !in shortCodeToToken {
        failedAttempts := failedAttempts + 1;
        if failedAttempts > MAX_FAILED_ATTEMPTS {
          failedAttempts := 0;
          shortCodeToToken := map[];
          forcePause := true;
          return TooManyFailedAttempts;
        }
        return InvalidShortCode;
      }
      var authToken := shortCodeToToken[shortCode];
      shortCodeToToken := shortCodeToToken - {shortCode};
      outcome := AddAuthToken(authToken, syncs);
      if outcome == Stored {
        tokensCache := None;
        outcome := Redeemed(authToken);
      }
    }

    method CreateNewTokenAndGetShortCode(shortCode: string, authToken: string)
      modifies this
      ensures Value() == Next(old(Value()), Create(shortCode, authToken))
    {
      if forcePause {
        forcePause := false;
      }
      shortCodeToToken := shortCodeToToken[shortCode := authToken];
    }

    method ClearAuthData(syncs: bool) returns (outcome: Outcome)
      modifies this
      ensures Value() == Next(old(Value()), ClearAll(syncs))
      ensures outcome == OutcomeOf(old(Value()), ClearAll(syncs))
    {
      outcome := StoreAuthTokens([], syncs);
    }

    method AddAuthToken(token: string, syncs: bool) returns (outcome: Outcome)
      modifies this
      ensures Value() == Next(old(Value()), AddToken(token, syncs))
      ensures outcome == OutcomeOf(old(Value()), AddToken(token, syncs))
    {
      hide Parse, Joined;
      var authTokens := GetAuthTokens();
      if token !in authTokens {
        authTokens := authTokens + [token];
      }
      if |authTokens| > MAX_TOKENS_COUNT {
        authTokens := authTokens[1..];
      }
      outcome := StoreAuthTokens(authTokens, syncs);
    }

    method StoreAuthTokens(authTokens: seq<string>, syncs: bool) returns (outcome: Outcome)
      modifies this
      ensures Value() == Persisted(old(Value()), authTokens)
      ensures outcome == StoreOutcome(authTokens, syncs)
    {
      var sb := "";
      var i := 0;
      while i < |authTokens|
        invariant 0 <= i <= |authTokens| && Value() == old(Value())
        invariant sb == Joined(authTokens[..i]) + if 0 < i < |authTokens| then "|" else ""
      {
        sb := sb + authTokens[i];
        i := i + 1;
        JoinGrows(authTokens, "|", i);
        if i < |authTokens| {
          sb := sb + "|";
        }
      }
      assert authTokens[..i] == authTokens;
      if |sb| > MAX_VALUE_LENGTH {
        return StoreFailed;
      }
      preferences := sb;
      tokensCache := None;
      outcome := if syncs then Stored else StoreFailed;
    }

    method GetAuthTokens() returns (tokens: seq<string>)
      modifies this
      ensures Value() == Loaded(old(Value())) && tokens == Tokens(old(Value()))
    {
      if tokensCache.None? {
        var persisted := GetPersistedAuthTokens();
        tokensCache := Some(persisted);
      }
      tokens := tokensCache.value;
    }

    method GetPersistedAuthTokens() returns (result: seq<string>)
      ensures result == Parse(preferences)
    {
      result := [];
      var tokensSplit := SplitAtBars(preferences);
      var i := 0;
      while i < |tokensSplit|
        invariant 0 <= i <= |tokensSplit| && result == Keep(tokensSplit[..i])
      {
        assert tokensSplit[..i + 1][..i] == tokensSplit[..i];
        if NotBlank(tokensSplit[i]) {
          result := result + [tokensSplit[i]];
        }
        i := i + 1;
      }
      assert tokensSplit[..i] == tokensSplit;
      SplitIsParse(preferences);
    }

    method IsValidToken(token: string) returns (valid: bool)
      modifies this
      ensures Value() == Next(old(Value()), Validate(token))
      ensures Answer(valid) == OutcomeOf(old(Value()), Validate(token))
    {
      var tokens := GetAuthTokens();
      valid := token in tokens;
    }
  }

  lemma NothingDone(s: Store)
    ensures Run(s, []) == s
  {
  }

  lemma OneMore(s: Store, ops: seq<Op>, n: nat)
    requires n < |ops|
    ensures Run(s, ops[..n + 1]) == Next(Run(s, ops[..n]), ops[n])
  {
    hide Next;
    assert ops[..n + 1][..n] == ops[..n];
  }

  /** A whole run of operations on the object. */
  method RunAll(stored: string, ops: seq<Op>) returns (outcomes: seq<Outcome>, store: Store)
    ensures |outcomes| == |ops|
    ensures var s := Store(stored, None, map[], 0, false);
            store == Run(s, ops) &&
            (forall i :: 0 <= i < |ops| ==> outcomes[i] == OutcomeOf(Run(s, ops[..i]), ops[i])) &&
            forall i :: 0 <= i < |ops| && ops[i].Validate? ==>
              outcomes[i] == Answer(Stands(Run(s, ops[..i]).prefs, '|', ops[i].token)
                                    && exists k :: 0 <= k < |ops[i].token| && ops[i].token[k] > ' ')
  {
    hide Next, OutcomeOf, Run, Stands;
    NothingDone(Store(stored, None, map[], 0, false));
    var manager := new ColtRemoteSecurityManager(stored);
    ghost var s := manager.Value();
    outcomes := [];
    var n := 0;
    while n < |ops|
      invariant 0 <= n <= |ops| && |outcomes| == n && fresh(manager)
      invariant manager.Value() == Run(s, ops[..n])
      invariant forall i :: 0 <= i < n ==> outcomes[i] == OutcomeOf(Run(s, ops[..i]), ops[i])
    {
      var outcome := Perform(manager, ops[n]);
      OneMore(s, ops, n);
      outcomes := outcomes + [outcome];
      n := n + 1;
    }
    assert ops[..n] == ops;
    forall i | 0 <= i < |ops| && ops[i].Validate?
      ensures outcomes[i] == Answer(Stands(Run(s, ops[..i]).prefs, '|', ops[i].token)
                                    && exists k :: 0 <= k < |ops[i].token| && ops[i].token[k] > ' ')
    {
      ValidateAnswers(s, ops[..i], ops[i].token);
    }
    store := Store(manager.preferences, manager.tokensCache, manager.shortCodeToToken,
                   manager.failedAttempts, manager.forcePause);
  }

  method Perform(manager: ColtRemoteSecurityManager, op: Op) returns (outcome: Outcome)
    modifies manager
    ensures manager.Value() == Next(old(manager.Value()), op) && outcome == OutcomeOf(old(manager.Value()), op)
  {
    match op
    case Create(code, token) =>
      manager.CreateNewTokenAndGetShortCode(code, token);
      outcome := Issued;
    case Obtain(code, syncs) =>
      outcome := manager.ObtainAuthToken(code, syncs);
    case AddToken(token, syncs) =>
      outcome := manager.AddAuthToken(token, syncs);
    case ClearAll(syncs) =>
      outcome := manager.ClearAuthData(syncs);
    case Validate(token) =>
      var valid := manager.IsValidToken(token);
      outcome := Answer(valid);
  }
}
