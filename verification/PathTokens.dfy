/** Project paths made portable: directory prefixes become tokens, and back. */
module PathTokens {
  import opened Options
  import opened Strings

  const PROJECT_TOKEN := "${project}"
  const COLT_HOME_TOKEN := "${colt_home}"

  predicate OccursAt(s: string, t: string, i: int) {
    0 <= i <= |s| - |t| && s[i..i + |t|] == t
  }

  predicate Contains(s: string, t: string) {
    exists i :: 0 <= i <= |s| && OccursAt(s, t, i)
  }

  /** FileUtils.normalize. */
  function Normalize(path: string, windows: bool): string {
    if windows then Replace(path, "/", "\\") else Replace(path, "\\", "/")
  }

  /** Note that a match of the application directory starts again from the absolute path. */
  function MakeRelative(absolutePath: Option<string>, project: string, home: string): Option<string> {
    match absolutePath
    case None => None
    case Some(path) =>
      if path == "" then absolutePath
      else
        var relative := if Contains(path, project) then Replace(path, project, PROJECT_TOKEN) else path;
        Some(if Contains(relative, home) then Replace(path, home, COLT_HOME_TOKEN) else relative)
  }

  function Replacement(token: string, project: string, home: string): string
  {
    if token == PROJECT_TOKEN then project else home
  }

  /** The two iteration orders a hash set of the tokens may have. */
  predicate IsTokenOrder(tokens: seq<string>) {
    tokens == [PROJECT_TOKEN, COLT_HOME_TOKEN] || tokens == [COLT_HOME_TOKEN, PROJECT_TOKEN]
  }

  function Expand(path: string, tokens: seq<string>, project: string, home: string): string
  {
    if tokens == [] then path
    else
      var t := tokens[|tokens| - 1];
      Replace(Expand(path, tokens[..|tokens| - 1], project, home), t, Replacement(t, project, home))
  }

  method MakeAbsolute(relativePath: Option<string>, tokens: seq<string>, project: string, home: string, windows: bool)
    returns (absolutePath: Option<string>)
    requires IsTokenOrder(tokens)
    ensures absolutePath == match relativePath
                            case None => None
                            case Some(path) => if path == "" then relativePath
                                               else Some(Normalize(Expand(path, tokens, project, home), windows))
  {
    if relativePath.None? || relativePath.value == "" {
      return relativePath;
    }
    var path := relativePath.value;
    var i := 0;
    while i < |tokens|
      invariant 0 <= i <= |tokens|
      invariant path == Expand(relativePath.value, tokens[..i], project, home)
    {
      assert tokens[..i + 1][..i] == tokens[..i];
      if Contains(path, tokens[i]) {
        path := Replace(path, tokens[i], Replacement(tokens[i], project, home));
      } else {
        NothingToReplace(path, tokens[i], Replacement(tokens[i], project, home));
      }
      i := i + 1;
    }
    assert tokens[..|tokens|] == tokens;
    absolutePath := Some(Normalize(path, windows));
  }

  lemma {:induction false} NothingToReplace(s: string, t: string, with: string)
    requires t != "" && !Contains(s, t)
    ensures Replace(s, t, with) == s
    decreases |s|
  {
    if |s| >= |t| {
      assert s[0..0 + |t|] == s[..|t|] && !OccursAt(s, t, 0);
      SuffixContainsLess(s, t, 1);
      NothingToReplace(s[1..], t, with);
      assert s == [s[0]] + s[1..];
    }
  }

  lemma SuffixContainsLess(s: string, t: string, k: nat)
    requires k <= |s| && !Contains(s, t)
    ensures !Contains(s[k..], t)
  {
    forall i | 0 <= i <= |s[k..]| && OccursAt(s[k..], t, i) ensures false {
      assert s[k..][i..i + |t|] == s[i + k..i + k + |t|];
      assert OccursAt(s, t, i + k);
    }
  }

  /** A token can overlap neither itself nor another token: '$' opens it and occurs nowhere else in it. */
  ghost predicate IsToken(t: string) {
    |t| > 2 && t[0] == '$' && forall i :: 0 < i < |t| ==> t[i] != '$'
  }

  lemma TokensDoNotOverlap()
    ensures IsToken(PROJECT_TOKEN) && IsToken(COLT_HOME_TOKEN)
    ensures PROJECT_TOKEN[2] != COLT_HOME_TOKEN[2]
  {
  }

  lemma SubstitutedFirst(p: string, dir: string, t: string)
    requires IsToken(t) && (dir == "" || (|p| >= |dir| && p[..|dir|] == dir))
    ensures |Replace(p, dir, t)| > 0 && Replace(p, dir, t)[0] == '$'
  {
  }

  /** Where the output has no '$' nothing was substituted. */
  lemma {:induction false} PrefixIsOriginal(p: string, dir: string, t: string, m: nat)
    requires IsToken(t) && m <= |Replace(p, dir, t)|
    requires forall i :: 0 <= i < m ==> Replace(p, dir, t)[i] != '$'
    ensures m <= |p| && Replace(p, dir, t)[..m] == p[..m]
    decreases |p|
  {
    hide Replace;
    if m > 0 {
      if dir == "" || (|p| >= |dir| && p[..|dir|] == dir) {
        SubstitutedFirst(p, dir, t);
      } else {
        SubstitutionStep(p, dir, t);
        if |p| >= |dir| {
          var out, rest := Replace(p, dir, t), Replace(p[1..], dir, t);
          assert forall i :: 0 <= i < m - 1 ==> rest[i] == out[i + 1];
          PrefixIsOriginal(p[1..], dir, t, m - 1);
          assert out[..m] == [p[0]] + rest[..m - 1];
        }
      }
    }
  }

  /** In front of a character that stays, no token begins unless one began there before. */
  lemma KeptCharacterStartsNoToken(p: string, dir: string, t: string, u: string)
    requires IsToken(t) && IsToken(u) && p != "" && !Contains(p, u)
    ensures var out := [p[0]] + Replace(p[1..], dir, t); |u| <= |out| ==> out[..|u|] != u
  {
    var rest := Replace(p[1..], dir, t);
    var out := [p[0]] + rest;
    assert !OccursAt(p, u, 0);
    if |u| <= |out| && out[..|u|] == u {
      assert forall i :: 0 <= i < |u| - 1 ==> rest[i] == u[i + 1];
      PrefixIsOriginal(p[1..], dir, t, |u| - 1);
    }
  }

  /** What a substitution does with the front of a path. */
  lemma SubstitutionStep(p: string, dir: string, t: string)
    requires dir != ""
    ensures |p| >= |dir| && p[..|dir|] == dir ==> Replace(p, dir, t) == t + Replace(p[|dir|..], dir, t)
    ensures |p| >= |dir| && p[..|dir|] != dir ==> Replace(p, dir, t) == [p[0]] + Replace(p[1..], dir, t)
    ensures |p| < |dir| ==> Replace(p, dir, t) == p
  {
  }

  lemma EmptySubstitution(p: string, t: string)
    ensures Replace(p, "", t) == if p == "" then t else t + [p[0]] + Replace(p[1..], "", t)
  {
  }

  /** A token in front of a text, or a character with which none begins. */
  lemma RestoredFront(t: string, c: char, rest: string, dir: string)
    requires t != ""
    ensures Replace(t + rest, t, dir) == dir + Replace(rest, t, dir)
    ensures (|t| <= |[c] + rest| ==> ([c] + rest)[..|t|] != t) ==>
              Replace([c] + rest, t, dir) == [c] + Replace(rest, t, dir)
  {
    assert (t + rest)[..|t|] == t && (t + rest)[|t|..] == rest;
    assert ([c] + rest)[1..] == rest;
    if |[c] + rest| < |t| { ShortStays(rest, t, dir); }
  }

  /** Substituting a directory by a token is undone by substituting the token by the directory. */
  lemma {:induction false} TokenRestoresDirectory(p: string, dir: string, t: string)
    requires IsToken(t) && !Contains(p, t)
    ensures Replace(Replace(p, dir, t), t, dir) == p
    decreases |p|
  {
    hide Replace, Contains;
    if dir == "" {
      EmptySubstitution(p, t);
      if p == "" {
        RestoredFront(t, '$', "", dir);
        ShortStays("", t, dir);
        assert t + "" == t;
      } else {
        var rest := Replace(p[1..], dir, t);
        SuffixContainsLess(p, t, 1);
        TokenRestoresDirectory(p[1..], dir, t);
        KeptCharacterStartsNoToken(p, dir, t, t);
        RestoredFront(t, p[0], [p[0]] + rest, dir);
        RestoredFront(t, p[0], rest, dir);
        assert t + [p[0]] + rest == t + ([p[0]] + rest);
      }
    } else if |p| < |dir| {
      SubstitutionStep(p, dir, t);
      NothingToReplace(p, t, dir);
    } else if p[..|dir|] == dir {
      SubstitutionStep(p, dir, t);
      SuffixContainsLess(p, t, |dir|);
      TokenRestoresDirectory(p[|dir|..], dir, t);
      RestoredFront(t, '$', Replace(p[|dir|..], dir, t), dir);
      assert p == dir + p[|dir|..];
    } else {
      SubstitutionStep(p, dir, t);
      SuffixContainsLess(p, t, 1);
      TokenRestoresDirectory(p[1..], dir, t);
      KeptCharacterStartsNoToken(p, dir, t, t);
      RestoredFront(t, p[0], Replace(p[1..], dir, t), dir);
    }
  }

  lemma ShortStays(s: string, t: string, with: string)
    requires |s| < |t|
    ensures Replace(s, t, with) == s
  {
  }

  /** Replacing token u steps over an inserted token t. */
  lemma {:induction false} StepsOver(t: string, j: nat, rest: string, u: string, with: string)
    requires IsToken(t) && IsToken(u) && t[2] != u[2] && j <= |t| && Replace(rest, u, with) == rest
    ensures Replace(t[j..] + rest, u, with) == t[j..] + rest
    decreases |t| - j
  {
    var s := t[j..] + rest;
    if j == |t| {
      assert s == rest;
    } else if |s| >= |u| {
      assert s[..|u|] != u by {
        if j > 0 { assert s[0] == t[j]; assert s[..|u|][0] == t[j]; }
        else { assert s[2] == t[2]; assert s[..|u|][2] == t[2]; }
      }
      StepsOver(t, j + 1, rest, u, with);
      assert s[1..] == t[j + 1..] + rest;
      assert s == [s[0]] + s[1..];
    }
  }

  /** The other token does not appear by the substitution. */
  lemma {:induction false} OtherTokenStaysAway(p: string, dir: string, t: string, u: string, with: string)
    requires IsToken(t) && IsToken(u) && t[2] != u[2] && !Contains(p, u)
    ensures Replace(Replace(p, dir, t), u, with) == Replace(p, dir, t)
    decreases |p|
  {
    var out := Replace(p, dir, t);
    if dir != "" && |p| < |dir| {
      NothingToReplace(p, u, with);
    } else if p == "" {
      StepsOver(t, 0, "", u, with);
      assert t[0..] + "" == t;
    } else if dir != "" && p[..|dir|] == dir {
      SuffixContainsLess(p, u, |dir|);
      OtherTokenStaysAway(p[|dir|..], dir, t, u, with);
      StepsOver(t, 0, Replace(p[|dir|..], dir, t), u, with);
      assert t[0..] + Replace(p[|dir|..], dir, t) == out;
    } else {
      SuffixContainsLess(p, u, 1);
      OtherTokenStaysAway(p[1..], dir, t, u, with);
      KeptCharacterStartsNoToken(p, dir, t, u);
      var kept := [p[0]] + Replace(p[1..], dir, t);
      assert kept[1..] == Replace(p[1..], dir, t);
      assert Replace(kept, u, with) == kept;
      if dir == "" {
        StepsOver(t, 0, kept, u, with);
        assert t[0..] + kept == out;
      }
    }
  }

  /** A path in which one directory became its token expands to the original in either order. */
  lemma ExpandsBack(p: string, dir: string, t: string, tokens: seq<string>, project: string, home: string)
    requires IsTokenOrder(tokens) && t in tokens && dir == Replacement(t, project, home)
    requires !Contains(p, PROJECT_TOKEN) && !Contains(p, COLT_HOME_TOKEN)
    ensures Expand(Replace(p, dir, t), tokens, project, home) == p
    ensures Expand(p, tokens, project, home) == p
  {
    TokensDoNotOverlap();
    var first, second := tokens[0], tokens[1];
    var r := Replace(p, dir, t);
    assert tokens[..1] == [first] && tokens[..1][..0] == [];
    assert forall s :: Expand(s, tokens[..1], project, home) == Replace(s, first, Replacement(first, project, home));
    NothingToReplace(p, first, Replacement(first, project, home));
    NothingToReplace(p, second, Replacement(second, project, home));
    TokenRestoresDirectory(p, dir, t);
    if t == second { OtherTokenStaysAway(p, dir, t, first, Replacement(first, project, home)); }
  }

  /** Relative and back is the normalised path, for every path without a token in it. */
  lemma RoundTrip(path: string, tokens: seq<string>, project: string, home: string)
    requires IsTokenOrder(tokens)
    requires !Contains(path, PROJECT_TOKEN) && !Contains(path, COLT_HOME_TOKEN)
    ensures var relative := MakeRelative(Some(path), project, home);
            && relative.Some?
            && if relative.value == "" then path == "" else Expand(relative.value, tokens, project, home) == path
  {
    ExpandsBack(path, project, PROJECT_TOKEN, tokens, project, home);
    ExpandsBack(path, home, COLT_HOME_TOKEN, tokens, project, home);
  }

  /** A directory touches a token if it could begin inside it: some end of the token, the '$' left
      out, and the directory have one as the beginning of the other. */
  ghost predicate Touches(dir: string, t: string) {
    exists k :: 0 < k < |t| && TouchesAt(dir, t[k..])
  }

  predicate TouchesAt(dir: string, end: string) {
    dir <= end || end <= dir
  }

  /** An occurrence that begins behind the first n characters is one in the rest. */
  lemma OccursBehind(front: string, rest: string, u: string, i: int)
    requires |front| <= i && OccursAt(front + rest, u, i)
    ensures Contains(rest, u)
  {
    var s := front + rest;
    assert s[i..i + |u|] == rest[i - |front|..i - |front| + |u|];
    assert OccursAt(rest, u, i - |front|);
  }

  /** Text without '$' that does not touch the token cannot begin inside it. */
  lemma NotInsideToken(t: string, rest: string, u: string, i: int)
    requires IsToken(t) && u != "" && '$' !in u && !Touches(u, t) && OccursAt(t + rest, u, i)
    ensures i >= |t|
  {
    hide Touches;
    if i < |t| { InsideTouches(t, rest, u, i); }
  }

  lemma InsideTouches(t: string, rest: string, u: string, i: int)
    requires IsToken(t) && u != "" && i < |t| && OccursAt(t + rest, u, i)
    ensures '$' in u || Touches(u, t)
  {
    var s := t + rest;
    assert s[i..i + |u|][0] == t[i];
    assert s[i..] == t[i..] + rest;
    assert u <= s[i..];
    assert TouchesAt(u, t[i..]);
  }

  /** Where such a text stands first in the output, it stands in the path. */
  lemma FirstIsOriginal(p: string, dir: string, t: string, u: string)
    requires IsToken(t) && '$' !in u && OccursAt(Replace(p, dir, t), u, 0)
    ensures |u| <= |p| && p[..|u|] == u
  {
    var out := Replace(p, dir, t);
    forall i | 0 <= i < |u| ensures out[i] != '$' { assert out[0..0 + |u|][i] in u; }
    PrefixIsOriginal(p, dir, t, |u|);
  }

  /** The substitution brings in no text without '$' that does not touch the token. */
  lemma {:induction false} NothingElseComes(p: string, dir: string, t: string, u: string)
    requires IsToken(t) && dir != "" && u != "" && '$' !in u && !Touches(u, t) && Contains(Replace(p, dir, t), u)
    ensures Contains(p, u)
    decreases |p|
  {
    hide Touches;
    var out := Replace(p, dir, t);
    var i :| 0 <= i <= |out| && OccursAt(out, u, i);
    if |p| < |dir| {
    } else if p[..|dir|] == dir {
      NotInsideToken(t, Replace(p[|dir|..], dir, t), u, i);
      OccursBehind(t, Replace(p[|dir|..], dir, t), u, i);
      NothingElseComes(p[|dir|..], dir, t, u);
      if !Contains(p, u) { SuffixContainsLess(p, u, |dir|); }
    } else if i == 0 {
      FirstIsOriginal(p, dir, t, u);
      assert OccursAt(p, u, 0);
    } else {
      OccursBehind([p[0]], Replace(p[1..], dir, t), u, i);
      NothingElseComes(p[1..], dir, t, u);
      if !Contains(p, u) { SuffixContainsLess(p, u, 1); }
    }
  }

  lemma {:induction false} DirectoryGoes(p: string, dir: string, t: string)
    requires IsToken(t) && dir != "" && '$' !in dir && !Touches(dir, t)
    ensures !Contains(Replace(p, dir, t), dir)
    decreases |p|
  {
    hide Touches;
    var out := Replace(p, dir, t);
    if i :| 0 <= i <= |out| && OccursAt(out, dir, i) {
      if |p| >= |dir| && p[..|dir|] == dir {
        NotInsideToken(t, Replace(p[|dir|..], dir, t), dir, i);
        OccursBehind(t, Replace(p[|dir|..], dir, t), dir, i);
        DirectoryGoes(p[|dir|..], dir, t);
      } else if |p| >= |dir| {
        if i == 0 { FirstIsOriginal(p, dir, t, dir); } else {
          OccursBehind([p[0]], Replace(p[1..], dir, t), dir, i);
          DirectoryGoes(p[1..], dir, t);
        }
      }
    }
  }

  /** A directory that touches the token is left over by some path. */
  lemma DirectoryIsLeft(dir: string, t: string, k: int) returns (p: string)
    requires dir != "" && 0 < k < |t| && TouchesAt(dir, t[k..])
    ensures Contains(p, dir) && Contains(Replace(p, dir, t), dir)
  {
    if dir <= t[k..] {
      p := dir;
      assert OccursAt(p, dir, 0) && p[|dir|..] == "";
      assert Replace(p, dir, t) == t + Replace("", dir, t) == t;
      assert OccursAt(t, dir, k);
    } else {
      var y := dir[|t| - k..];
      assert dir == t[k..] + y;
      p := dir + y;
      assert p[..|dir|] == dir && p[|dir|..] == y;
      assert OccursAt(p, dir, 0);
      assert Replace(p, dir, t) == t + y;
      assert (t + y)[k..k + |dir|] == dir;
      assert OccursAt(t + y, dir, k);
    }
  }

  predicate IsLeft(p: string, dir: string, t: string) {
    Contains(Replace(p, dir, t), dir)
  }

  /** No path keeps an occurrence of its directory exactly if the directory does not touch the token. */
  lemma DirectoryAlwaysGoes(dir: string, t: string)
    requires IsToken(t) && dir != "" && '$' !in dir
    ensures (exists p :: IsLeft(p, dir, t)) <==> Touches(dir, t)
  {
    if Touches(dir, t) {
      var k :| 0 < k < |t| && TouchesAt(dir, t[k..]);
      var p := DirectoryIsLeft(dir, t, k);
      assert IsLeft(p, dir, t);
    } else {
      forall p ensures !IsLeft(p, dir, t) { DirectoryGoes(p, dir, t); }
    }
  }

  /** Directories as they can be configured, and the paths relative to them: a path under the project
      directory and not under the application's loses the former, one under the latter loses that, and
      any other stays as it is. */
  lemma RelativeHasNoDirectory(path: string, project: string, home: string)
    requires project != "" && '$' !in project && !Touches(project, PROJECT_TOKEN)
    requires home != "" && '$' !in home && !Touches(home, PROJECT_TOKEN) && !Touches(home, COLT_HOME_TOKEN)
    requires path != ""
    ensures var r := MakeRelative(Some(path), project, home);
            && r.Some?
            && (!Contains(path, project) && !Contains(path, home) ==> r.value == path)
            && (Contains(path, project) && !Contains(path, home) ==>
                  !Contains(r.value, project) && r.value == Replace(path, project, PROJECT_TOKEN))
            && (!Contains(path, project) && Contains(path, home) ==>
                  !Contains(r.value, home) && r.value == Replace(path, home, COLT_HOME_TOKEN))
            && (!Contains(r.value, project) || !Contains(r.value, home))
  {
    TokensDoNotOverlap();
    hide Touches, Contains, Replace;
    DirectoryGoes(path, project, PROJECT_TOKEN);
    DirectoryGoes(path, home, COLT_HOME_TOKEN);
    if Contains(Replace(path, project, PROJECT_TOKEN), home) { NothingElseComes(path, project, PROJECT_TOKEN, home); }
  }

  /** Most directories touch no token, but one that begins with a letter of it does. */
  lemma SomeDirectoriesTouch()
    ensures !Touches("/home/me", PROJECT_TOKEN) && Touches("o", PROJECT_TOKEN)
    ensures Contains(Replace("o", "o", PROJECT_TOKEN), "o")
  {
    forall k | 0 < k < |PROJECT_TOKEN| ensures !TouchesAt("/home/me", PROJECT_TOKEN[k..]) {
      assert PROJECT_TOKEN[k..][0] == PROJECT_TOKEN[k] != '/';
    }
    assert PROJECT_TOKEN[4..][0] == 'o';
    assert TouchesAt("o", PROJECT_TOKEN[4..]);
    assert OccursAt(PROJECT_TOKEN, "o", 4);
    assert "o"[1..] == "";
    assert Replace("o", "o", PROJECT_TOKEN) == PROJECT_TOKEN + Replace("", "o", PROJECT_TOKEN) == PROJECT_TOKEN;
  }

  lemma {:induction false} SingleCharacters(s: string, c: char, d: char)
    ensures var r := Replace(s, [c], [d]);
            |r| == |s| && forall i :: 0 <= i < |s| ==> r[i] == if s[i] == c then d else s[i]
    decreases |s|
  {
    if s != "" {
      SingleCharacters(s[1..], c, d);
      assert s[..1] == [s[0]];
      assert Replace(s, [c], [d]) == [if s[0] == c then d else s[0]] + Replace(s[1..], [c], [d]);
    }
  }

  /** Normalising turns every slash of the other platform round and leaves the rest. */
  lemma NormalizeTurnsSlashes(path: string, windows: bool)
    ensures var r := Normalize(path, windows);
            && |r| == |path|
            && forall i :: 0 <= i < |path| ==>
                 r[i] == if windows && path[i] == '/' then '\\'
                         else if !windows && path[i] == '\\' then '/'
                         else path[i]
  {
    SingleCharacters(path, '/', '\\');
    SingleCharacters(path, '\\', '/');
  }

  // ---- what expanding means for any path

  /** No occurrence of the token begins in the first part and ends in the second. */
  ghost predicate Apart(a: string, b: string, u: string) {
    forall i :: 0 <= i < |a| < i + |u| <= |a + b| ==> !OccursAt(a + b, u, i)
  }

  lemma ApartBehind(a: string, b: string, u: string, k: nat)
    requires Apart(a, b, u) && k <= |a|
    ensures Apart(a[k..], b, u)
  {
    var c := a[k..];
    assert a + b == a[..k] + (c + b);
    forall i | 0 <= i < |c| < i + |u| <= |c + b| ensures !OccursAt(c + b, u, i) {
      assert !OccursAt(a + b, u, i + k);
      assert (a + b)[i + k..i + k + |u|] == (c + b)[i..i + |u|];
    }
  }

  lemma NotAtFront(a: string, b: string, u: string)
    requires a != "" && Apart(a, b, u) && |a + b| >= |u| && !(|a| >= |u| && a[..|u|] == u)
    ensures (a + b)[..|u|] != u
  {
    if |a| >= |u| {
      assert (a + b)[..|u|] == a[..|u|];
    } else {
      assert !OccursAt(a + b, u, 0);
      assert (a + b)[0..0 + |u|] == (a + b)[..|u|];
    }
  }

  lemma ReplaceFirst(s: string, u: string, with: string)
    requires u != ""
    ensures |s| >= |u| && s[..|u|] == u ==> Replace(s, u, with) == with + Replace(s[|u|..], u, with)
    ensures s != "" && !(|s| >= |u| && s[..|u|] == u) ==> Replace(s, u, with) == [s[0]] + Replace(s[1..], u, with)
    ensures Replace("", u, with) == ""
  {
    if s != "" && |s| < |u| { assert s == [s[0]] + s[1..]; }
  }

  /** The replacement of a part and of what follows do not meet. */
  lemma {:induction false} ReplaceParts(a: string, b: string, u: string, with: string)
    requires u != "" && Apart(a, b, u)
    ensures Replace(a + b, u, with) == Replace(a, u, with) + Replace(b, u, with)
    decreases |a|
  {
    hide Replace, Apart;
    var s := a + b;
    ReplaceFirst(a, u, with);
    ReplaceFirst(s, u, with);
    if a == "" {
      assert s == b;
    } else if |a| >= |u| && a[..|u|] == u {
      assert s[..|u|] == u && s[|u|..] == a[|u|..] + b;
      ApartBehind(a, b, u, |u|);
      ReplaceParts(a[|u|..], b, u, with);
    } else {
      if |s| >= |u| { NotAtFront(a, b, u); }
      assert s[1..] == a[1..] + b;
      ApartBehind(a, b, u, 1);
      ReplaceParts(a[1..], b, u, with);
    }
  }

  /** Nothing that begins in front of a token reaches into it, and nothing but itself begins in it. */
  lemma ApartFromToken(a: string, t: string, b: string, u: string)
    requires IsToken(t) && IsToken(u) && (t == u || t[2] != u[2])
    ensures Apart(a, t + b, u) && Apart(t, b, u)
  {
    var s := a + (t + b);
    forall i | 0 <= i < |a| < i + |u| <= |s| ensures !OccursAt(s, u, i) {
      assert s[i..i + |u|][|a| - i] == s[|a|] == '$';
    }
    forall i | 0 <= i < |t| < i + |u| <= |t + b| ensures !OccursAt(t + b, u, i) {
      assert (t + b)[i..i + |u|][0] == t[i];
      assert i == 0 ==> (t + b)[i..i + |u|][2] == t[2];
    }
  }

  lemma ReplaceAround(a: string, t: string, b: string, u: string, with: string)
    requires IsToken(t) && IsToken(u) && (t == u || t[2] != u[2])
    ensures Replace(a + t + b, u, with) ==
            Replace(a, u, with) + (if t == u then with else t) + Replace(b, u, with)
  {
    hide Replace, Apart;
    ApartFromToken(a, t, b, u);
    assert a + t + b == a + (t + b);
    ReplaceParts(a, t + b, u, with);
    ReplaceParts(t, b, u, with);
    ReplaceFirst("", u, with);
    if t == u {
      ReplaceFirst(t, u, with);
      assert t[..|t|] == t && t[|t|..] == "" && with + "" == with;
    } else {
      StepsOver(t, 0, "", u, with);
      assert t[0..] + "" == t;
    }
  }

  /** A directory that cannot be part of a token: it does not begin with a character of one. */
  predicate Plain(dir: string) {
    dir != "" && '$' !in dir && dir[0] !in PROJECT_TOKEN && dir[0] !in COLT_HOME_TOKEN
  }

  lemma ApartFromDirectory(a: string, dir: string, b: string, u: string)
    requires Plain(dir) && IsToken(u) && dir[0] !in u
    ensures Apart(a, dir + b, u) && Apart(dir, b, u) && !Contains(dir, u)
  {
    var s := a + (dir + b);
    forall i | 0 <= i < |a| < i + |u| <= |s| ensures !OccursAt(s, u, i) {
      assert s[i..i + |u|][|a| - i] == s[|a|] == dir[0];
    }
    forall i | 0 <= i < |dir| < i + |u| <= |dir + b| ensures !OccursAt(dir + b, u, i) {
      assert (dir + b)[i..i + |u|][0] == dir[i] && dir[i] in dir;
    }
    forall i | 0 <= i <= |dir| - |u| ensures !OccursAt(dir, u, i) {
      assert dir[i..i + |u|][0] == dir[i] && dir[i] in dir;
    }
  }

  lemma ReplaceAroundDirectory(a: string, dir: string, b: string, u: string, with: string)
    requires Plain(dir) && IsToken(u) && dir[0] !in u
    ensures Replace(a + dir + b, u, with) == Replace(a, u, with) + dir + Replace(b, u, with)
  {
    hide Replace, Apart;
    ApartFromDirectory(a, dir, b, u);
    assert a + dir + b == a + (dir + b);
    ReplaceParts(a, dir + b, u, with);
    ReplaceParts(dir, b, u, with);
    NothingToReplace(dir, u, with);
  }

  /** Where a token stands in a path its directory stands in the expansion, and what is in front of it
      and behind it is expanded by itself, in either order of the tokens. */
  lemma TokenIsExpanded(a: string, t: string, b: string, tokens: seq<string>, project: string, home: string)
    requires IsTokenOrder(tokens) && t in tokens && Plain(project) && Plain(home)
    ensures Expand(a + t + b, tokens, project, home) ==
            Expand(a, tokens, project, home) + (if t == PROJECT_TOKEN then project else home)
            + Expand(b, tokens, project, home)
  {
    hide Replace, Plain, IsToken;
    TokensDoNotOverlap();
    PlainIsApart(project);
    PlainIsApart(home);
    var first, second := tokens[0], tokens[1];
    var one, two := Replacement(first, project, home), Replacement(second, project, home);
    TwoSteps(a + t + b, tokens, project, home);
    TwoSteps(a, tokens, project, home);
    TwoSteps(b, tokens, project, home);
    ReplaceAround(a, t, b, first, one);
    var a1, b1 := Replace(a, first, one), Replace(b, first, one);
    if t == first {
      ReplaceAroundDirectory(a1, one, b1, second, two);
    } else {
      ReplaceAround(a1, t, b1, second, two);
    }
  }

  lemma PlainIsApart(dir: string)
    requires Plain(dir)
    ensures dir != "" && dir[0] !in PROJECT_TOKEN && dir[0] !in COLT_HOME_TOKEN
  {
  }

  lemma TwoSteps(p: string, tokens: seq<string>, project: string, home: string)
    requires IsTokenOrder(tokens)
    ensures Expand(p, tokens, project, home) ==
            Replace(Replace(p, tokens[0], Replacement(tokens[0], project, home)),
                    tokens[1], Replacement(tokens[1], project, home))
  {
    hide Replace;
    var init := tokens[..1];
    assert init == [tokens[0]] && init[..0] == [];
    assert Expand(p, init[..0], project, home) == p;
    assert Expand(p, init, project, home) == Replace(p, tokens[0], Replacement(tokens[0], project, home));
  }

  /** A path without a token is its own expansion. */
  lemma NothingExpanded(p: string, tokens: seq<string>, project: string, home: string)
    requires IsTokenOrder(tokens) && !Contains(p, PROJECT_TOKEN) && !Contains(p, COLT_HOME_TOKEN)
    ensures Expand(p, tokens, project, home) == p
  {
    hide Replace, Contains;
    TwoSteps(p, tokens, project, home);
    NothingToReplace(p, tokens[0], Replacement(tokens[0], project, home));
    NothingToReplace(p, tokens[1], Replacement(tokens[1], project, home));
  }

  /** The two operations of the source in a row. */
  method ThereAndBack(path: Option<string>, tokens: seq<string>, project: string, home: string, windows: bool)
    returns (back: Option<string>)
    requires IsTokenOrder(tokens)
    requires path.Some? ==> !Contains(path.value, PROJECT_TOKEN) && !Contains(path.value, COLT_HOME_TOKEN)
    ensures back == if path.None? then None else Some(Normalize(path.value, windows))
  {
    if path.Some? { RoundTrip(path.value, tokens, project, home); }
    back := MakeAbsolute(MakeRelative(path, project, home), tokens, project, home, windows);
  }
}
