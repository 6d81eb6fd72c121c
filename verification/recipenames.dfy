/** Names of recipes in build statistics: name, epoch, version and revision in one string, and apart again. */
module RecipeNames {
  import opened Options

  datatype Recipe = Recipe(name: string, epoch: Option<string>, version: string, revision: string)

  /** Epoch, version and revision. */
  function Ev(r: Recipe): string { (if r.epoch.Some? then r.epoch.value + "_" else "") + r.version }

  /** `BSRecipe.nevr` */
  function Nevr(r: Recipe): string { r.name + "-" + (Ev(r) + "-" + r.revision) }

  predicate Digit(c: char) { '0' <= c <= '9' }

  predicate Space(c: char) { c == ' ' || '\t' <= c <= '\r' || '\U{1C}' <= c <= '\U{1F}' }

  predicate Solid(s: string) { forall i :: 0 <= i < |s| ==> !Space(s[i]) }

  /** The last dash before an index. */
  function LastDash(s: string, n: nat): (i: Option<nat>)
    requires n <= |s|
    ensures i.Some? ==> i.value < n && s[i.value] == '-' && forall j :: i.value < j < n ==> s[j] != '-'
    ensures i.None? ==> forall j :: 0 <= j < n ==> s[j] != '-'
  {
    if n == 0 then None else if s[n - 1] == '-' then Some(n - 1) else LastDash(s, n - 1)
  }

  /** A dash that is not the first character and has a digit behind it. */
  predicate DashDigit(s: string, i: nat) { 1 <= i < |s| - 1 && s[i] == '-' && Digit(s[i + 1]) }

  /** The last such dash before an index. */
  function LastDashDigit(s: string, n: nat): (i: Option<nat>)
    requires n <= |s|
    ensures i.Some? ==> i.value < n && DashDigit(s, i.value) && forall j :: i.value < j < n ==> !DashDigit(s, j)
    ensures i.None? ==> forall j :: 0 <= j < n ==> !DashDigit(s, j)
  {
    if n == 0 then None else if DashDigit(s, n - 1) then Some(n - 1) else LastDashDigit(s, n - 1)
  }

  /** How many digits a text starts with. */
  function Digits(s: string): (n: nat)
    ensures n <= |s| && (forall i :: 0 <= i < n ==> Digit(s[i])) && (n < |s| ==> !Digit(s[n]))
  {
    if s == "" || !Digit(s[0]) then 0 else 1 + Digits(s[1..])
  }

  /** `([0-9]{1,5})_` and something behind it. */
  predicate LooksLikeEpoch(s: string) { var k := Digits(s); 1 <= k <= 5 && k + 1 < |s| && s[k] == '_' }

  /** ... that is a digit. */
  predicate LooksLikeEpochAndVersion(s: string) { LooksLikeEpoch(s) && Digit(s[Digits(s) + 1]) }

  /** The groups of a match. */
  datatype Match = Match(name: string, epoch: Option<string>, version: string)

  /** Name, optional epoch and version behind a cut. */
  function MatchAt(s: string, i: nat, epoch: bool): Match
    requires i < |s|
  {
    var v := s[i + 1..];
    if epoch && LooksLikeEpoch(v) then Match(s[..i], Some(v[..Digits(v)]), v[Digits(v) + 1..]) else Match(s[..i], None, v)
  }

  /** The two regular expressions: the name is as long as it can be; if nothing behind a dash starts with a digit,
      the version is what is behind the last dash. */
  function SplitNev(s: string): Option<Match> {
    var i := LastDashDigit(s, |s|);
    if Solid(s) && i.Some? then Some(MatchAt(s, i.value, LooksLikeEpochAndVersion(s[i.value + 1..])))
    else
      var j := LastDash(s, |s|);
      if j.None? || j.value == 0 || j.value + 1 == |s| || !Solid(s[..j.value]) then None
      else Some(MatchAt(s, j.value, true))
  }

  /** `BuildStats.split_nevr`; without a match, or without a dash, it raises. */
  function SplitNevr(s: string): Option<Recipe> {
    var d := LastDash(s, |s|);
    if d.None? then None
    else
      var nev := SplitNev(s[..d.value]);
      if nev.None? then None
      else Some(Recipe(nev.value.name, nev.value.epoch, nev.value.version, s[d.value + 1..]))
  }

  // ---- when a name can be taken apart ---------------------------------------------------------

  predicate NoDash(s: string) { '-' !in s }

  /** Names without blanks, an epoch of one to five digits or none, no dash in version and revision. */
  predicate WellFormed(r: Recipe) {
    && r.name != "" && Solid(r.name) && r.version != "" && Solid(r.version) && NoDash(r.version) && NoDash(r.revision)
    && (r.epoch.Some? ==> IsEpoch(r.epoch.value))
  }

  /** With a version that starts with a digit: there is an epoch, or the version does not look as if there was one.
      Otherwise: no epoch, and no digit behind a dash in the name. */
  predicate Recoverable(r: Recipe) {
    if r.version != "" && Digit(r.version[0]) then r.epoch.Some? || !LooksLikeEpochAndVersion(r.version)
    else r.epoch.None? && !DigitInName(r.name)
  }

  predicate DigitInName(name: string) { exists i :: 0 <= i < |name| && DashDigit(name, i) }

  lemma {:induction false} DigitsOf(a: string, b: string)
    requires Digits(a) == |a| && (b == "" || !Digit(b[0]))
    ensures Digits(a + b) == |a|
    decreases |a|
  {
    if a == "" {
      assert a + b == b;
    } else {
      assert (a + b)[1..] == a[1..] + b;
      DigitsOf(a[1..], b);
    }
  }

  lemma SolidConcat(a: string, b: string)
    ensures Solid(a + b) <==> Solid(a) && Solid(b)
  {
    if Solid(a + b) {
      assert forall i :: 0 <= i < |a| ==> a[i] == (a + b)[i];
      assert forall i :: 0 <= i < |b| ==> b[i] == (a + b)[|a| + i];
    }
  }

  /** The dash before the revision is the last one. */
  lemma RevisionIs(r: Recipe)
    requires WellFormed(r)
    ensures var s, nev := Nevr(r), r.name + "-" + Ev(r);
            LastDash(s, |s|) == Some(|nev|) && s[..|nev|] == nev && s[|nev| + 1..] == r.revision
  {
    var s, nev := Nevr(r), r.name + "-" + Ev(r);
    assert s == nev + "-" + r.revision;
    assert s[|nev|] == '-' && s[|nev| + 1..] == r.revision;
    forall j | |nev| < j < |s| ensures s[j] != '-' { assert s[j] == r.revision[j - |nev| - 1]; }
  }

  /** No dash behind the one that ends the name, and none with a digit behind it but those in the name and this one. */
  lemma DashesOf(name: string, v: string)
    requires name != "" && v != "" && NoDash(v)
    ensures var s := name + "-" + v;
            && LastDash(s, |s|) == Some(|name|) && s[..|name|] == name && s[|name| + 1..] == v
            && (forall j: nat :: j > |name| ==> !DashDigit(s, j)) && (DashDigit(s, |name|) <==> Digit(v[0]))
            && (forall j: nat :: j < |name| ==> (DashDigit(s, j) <==> DashDigit(name, j)))
  {
    var s := name + "-" + v;
    assert forall j :: |name| < j < |s| ==> s[j] == v[j - |name| - 1];
    assert s[..|name|] == name && s[|name| + 1..] == v && s[|name|] == '-' && s[|name| + 1] == v[0];
    assert forall j :: 0 <= j < |name| ==> s[j] == name[j];
  }

  /** Epoch and version, told apart. */
  lemma EvIs(r: Recipe)
    requires WellFormed(r)
    ensures Ev(r) != "" && NoDash(Ev(r)) && Solid(Ev(r))
    ensures r.epoch.Some? ==>
              && Digits(Ev(r)) == |r.epoch.value| && LooksLikeEpoch(Ev(r)) && Digit(Ev(r)[0])
              && (LooksLikeEpochAndVersion(Ev(r)) <==> Digit(r.version[0]))
              && Ev(r)[..|r.epoch.value|] == r.epoch.value && Ev(r)[|r.epoch.value| + 1..] == r.version
    ensures r.epoch.None? ==> Ev(r) == r.version
  {
    if r.epoch.Some? {
      var e := r.epoch.value;
      assert Ev(r) == e + ("_" + r.version);
      AllDigits(e);
      EpochHasNoDash(e);
      DigitsOf(e, "_" + r.version);
      SolidConcat(e, "_" + r.version);
      SolidConcat("_", r.version);
      assert forall i :: 0 <= i < |e| ==> Digit(e[i]);
      assert Ev(r)[0] == e[0] && Ev(r)[|e| + 1] == r.version[0];
    }
  }

  lemma SolidDashed(name: string, v: string)
    requires Solid(name) && Solid(v)
    ensures Solid(name + "-" + v)
  {
  }

  /** What a name followed by a version without a dash is taken for. */
  lemma SplitNevIs(name: string, v: string)
    requires name != "" && Solid(name) && v != "" && Solid(v) && NoDash(v)
    ensures var r := SplitNev(name + "-" + v);
            && (Digit(v[0]) ==>
                  r == Some(if LooksLikeEpochAndVersion(v) then Match(name, Some(v[..Digits(v)]), v[Digits(v) + 1..])
                            else Match(name, None, v)))
            && (!Digit(v[0]) && !DigitInName(name) ==> r == Some(Match(name, None, v)))
            && (!Digit(v[0]) && DigitInName(name) ==> r.Some? && |r.value.name| < |name|)
  {
    hide LooksLikeEpoch, LooksLikeEpochAndVersion, Digits, Solid, LastDashDigit, LastDash, DashDigit, DigitInName, NoDash;
    var s := name + "-" + v;
    DashesOf(name, v);
    SolidDashed(name, v);
    NotAnEpoch(v);
    CutAt(name, v);
    if LastDashDigit(s, |s|).Some? && !Digit(v[0]) { ShorterName(s, LastDashDigit(s, |s|).value); }
    SolidPrefix(name, s);
  }

  lemma SolidPrefix(name: string, s: string)
    requires Solid(s)
    ensures name <= s ==> Solid(name)
  {
  }

  lemma ShorterName(s: string, i: nat)
    requires i < |s|
    ensures |s[..i]| == i
  {
  }

  /** Where a name followed by a version is cut. */
  lemma CutAt(name: string, v: string)
    requires name != "" && v != "" && NoDash(v)
    ensures var s := name + "-" + v; var i := LastDashDigit(s, |s|);
            && (Digit(v[0]) ==> i == Some(|name|)) && (!Digit(v[0]) && !DigitInName(name) ==> i == None)
            && (!Digit(v[0]) && DigitInName(name) ==> i.Some? && i.value < |name|)
  {
    hide Solid, Digits;
    var s := name + "-" + v;
    DashesOf(name, v);
    if !Digit(v[0]) {
      if j :| 0 <= j < |name| && DashDigit(name, j) { assert DashDigit(s, j) && !DashDigit(s, |name|); }
    }
  }

  /** Taking a name apart gives back its parts exactly if it is recoverable. */
  lemma NevrRoundTrip(r: Recipe)
    requires WellFormed(r)
    ensures SplitNevr(Nevr(r)) == Some(r) <==> Recoverable(r)
  {
    hide LooksLikeEpoch, LooksLikeEpochAndVersion, Nevr, Digits, SplitNev, Solid;
    RevisionIs(r);
    EvIs(r);
    SplitNevIs(r.name, Ev(r));
    NotAnEpoch(r.version);
  }

  lemma NotAnEpoch(v: string)
    requires v != ""
    ensures !Digit(v[0]) ==> !LooksLikeEpoch(v)
    ensures LooksLikeEpochAndVersion(v) ==> LooksLikeEpoch(v) && v[Digits(v) + 1..] != v
  {
  }

  // ---- the regular expressions ----------------------------------------------------------------

  predicate IsEpoch(e: string) { 1 <= |e| <= 5 && forall i :: 0 <= i < |e| ==> '0' <= e[i] <= '9' }

  /** `\S*` */
  predicate Unbroken(s: string) { forall c | c in s :: c != ' ' && !('\t' <= c <= '\r') && !('\U{1C}' <= c <= '\U{1F}') }

  lemma UnbrokenIs(s: string)
    ensures Unbroken(s) <==> Solid(s)
  {
    assert forall i :: 0 <= i < |s| ==> s[i] in s;
  }

  function Tail(m: Match): string { (if m.epoch.Some? then m.epoch.value + "_" else "") + m.version }

  /** `^(\S+)-(([0-9]{1,5})_)?([0-9]\S*)$` if `first`, and `^(\S+)-(([0-9]{1,5})_)?([^-]+)$` otherwise. */
  predicate Fits(first: bool, s: string, m: Match) {
    && s == m.name + "-" + Tail(m)
    && m.name != "" && Unbroken(m.name) && (m.epoch.Some? ==> IsEpoch(m.epoch.value)) && m.version != ""
    && if first then '0' <= m.version[0] <= '9' && Unbroken(m.version) else NoDash(m.version)
  }

  /** The match that greedy repetition finds: no other has a longer name, and none of the same name has an epoch if
      this one has not. */
  ghost predicate Preferred(first: bool, s: string, m: Match) {
    && Fits(first, s, m)
    && forall o :: Fits(first, s, o) ==> |o.name| <= |m.name| && (|o.name| == |m.name| && o.epoch.Some? ==> m.epoch.Some?)
  }

  lemma {:induction false} AllDigits(e: string)
    requires forall i :: 0 <= i < |e| ==> Digit(e[i])
    ensures Digits(e) == |e|
    decreases |e|
  {
    if e != "" { AllDigits(e[1..]); }
  }

  lemma TailIs(m: Match)
    requires m.epoch.Some? && IsEpoch(m.epoch.value) && m.version != ""
    ensures var t, e := Tail(m), m.epoch.value;
            && Digits(t) == |e| && LooksLikeEpoch(t) && t[..|e|] == e && t[|e| + 1..] == m.version && Digit(t[0])
            && (LooksLikeEpochAndVersion(t) <==> Digit(m.version[0]))
  {
    var t, e := Tail(m), m.epoch.value;
    AllDigits(e);
    assert t == e + ("_" + m.version);
    DigitsOf(e, "_" + m.version);
    assert t[|e|] == '_' && t[|e| + 1] == m.version[0] && t[0] == e[0];
  }

  lemma CutIs(first: bool, s: string, m: Match)
    requires Fits(first, s, m)
    ensures var n := |m.name|; 1 <= n < |s| - 1 && s[n] == '-' && s[..n] == m.name && s[n + 1..] == Tail(m) && Tail(m) != ""
  {
  }

  lemma EpochHasNoDash(e: string)
    requires IsEpoch(e)
    ensures NoDash(e) && Solid(e)
  {
  }

  /** Where a match of the first expression can be cut. */
  lemma FirstCut(s: string, m: Match)
    requires Fits(true, s, m)
    ensures Solid(s) && DashDigit(s, |m.name|)
  {
    CutIs(true, s, m);
    UnbrokenIs(m.name);
    UnbrokenIs(m.version);
    if m.epoch.Some? {
      TailIs(m);
      EpochHasNoDash(m.epoch.value);
      SolidConcat(m.epoch.value, "_");
      SolidConcat(m.epoch.value + "_", m.version);
    } else {
      assert Tail(m) == m.version;
    }
    SolidDashed(m.name, Tail(m));
    assert s[|m.name| + 1] == Tail(m)[0];
  }

  /** ... and of the second: at the last dash. */
  lemma SecondCut(s: string, m: Match)
    requires Fits(false, s, m)
    ensures LastDash(s, |s|) == Some(|m.name|)
  {
    CutIs(false, s, m);
    if m.epoch.Some? {
      EpochHasNoDash(m.epoch.value);
    } else {
      assert Tail(m) == m.version;
    }
    assert NoDash(Tail(m));
    DashesOf(m.name, Tail(m));
  }

  lemma MatchAtIs(s: string, i: nat, epoch: bool)
    requires 1 <= i < |s| - 1 && s[i] == '-'
    ensures var m := MatchAt(s, i, epoch);
            && s == m.name + "-" + Tail(m) && |m.name| == i && m.version != ""
            && (m.epoch.Some? ==> IsEpoch(m.epoch.value) && epoch && LooksLikeEpoch(s[i + 1..]))
            && (m.epoch.None? ==> m.version == s[i + 1..])
  {
    Rejoined(s, i);
    if epoch && LooksLikeEpoch(s[i + 1..]) { EpochApart(s[i + 1..]); }
    hide LooksLikeEpoch, Digits, IsEpoch;
  }

  lemma Rejoined(s: string, i: nat)
    requires i < |s|
    ensures s == s[..i] + [s[i]] + s[i + 1..] && |s[..i]| == i
  {
  }

  lemma EpochApart(v: string)
    requires LooksLikeEpoch(v)
    ensures var k := Digits(v); v == v[..k] + "_" + v[k + 1..] && IsEpoch(v[..k]) && v[k + 1..] != ""
  {
    Rejoined(v, Digits(v));
  }

  /** Two matches with the same name are told apart by the epoch being there, and agree on it. */
  lemma SameCut(first: bool, s: string, m: Match, o: Match)
    requires Fits(first, s, m) && Fits(first, s, o) && |m.name| == |o.name| && m.epoch.Some? == o.epoch.Some?
    ensures m == o
  {
    CutIs(first, s, m);
    CutIs(first, s, o);
    if m.epoch.Some? {
      TailIs(m);
      TailIs(o);
    } else {
      assert Tail(m) == m.version && Tail(o) == o.version;
    }
  }

  lemma PreferredIsUnique(first: bool, s: string, m: Match, o: Match)
    requires Preferred(first, s, m) && Preferred(first, s, o)
    ensures m == o
  {
    SameCut(first, s, m, o);
  }

  lemma SolidParts(s: string, i: nat)
    requires Solid(s) && i < |s|
    ensures Solid(s[..i]) && Solid(s[i + 1..])
  {
  }

  lemma SolidDrop(s: string, n: nat)
    requires Solid(s) && n <= |s|
    ensures Solid(s[n..])
  {
  }

  /** The answer for the first expression. */
  lemma FirstIsPreferred(s: string)
    ensures var i := LastDashDigit(s, |s|);
            if Solid(s) && i.Some? then
              Preferred(true, s, MatchAt(s, i.value, LooksLikeEpochAndVersion(s[i.value + 1..])))
            else forall m :: !Fits(true, s, m)
  {
    hide Solid, Digits, Tail, LooksLikeEpochAndVersion, LastDashDigit, MatchAt, IsEpoch, Fits;
    var i := LastDashDigit(s, |s|);
    if Solid(s) && i.Some? {
      FirstFits(s, i.value);
      var m := MatchAt(s, i.value, LooksLikeEpochAndVersion(s[i.value + 1..]));
      forall o | Fits(true, s, o)
        ensures |o.name| <= |m.name| && (|o.name| == |m.name| && o.epoch.Some? ==> m.epoch.Some?)
      {
        FirstCut(s, o);
        CutIs(true, s, o);
        FirstEpoch(s, o);
      }
    } else {
      forall m ensures !Fits(true, s, m) {
        if Fits(true, s, m) { FirstCut(s, m); }
      }
    }
  }

  lemma FirstEpoch(s: string, o: Match)
    requires Fits(true, s, o)
    ensures |o.name| < |s| && (o.epoch.Some? ==> LooksLikeEpochAndVersion(s[|o.name| + 1..]))
  {
    CutIs(true, s, o);
    if o.epoch.Some? { TailIs(o); }
  }

  lemma FirstFits(s: string, i: nat)
    requires Solid(s) && DashDigit(s, i)
    ensures var m := MatchAt(s, i, LooksLikeEpochAndVersion(s[i + 1..]));
            Fits(true, s, m) && |m.name| == i && (m.epoch.Some? <==> LooksLikeEpochAndVersion(s[i + 1..]))
  {
    hide Digits, Solid, IsEpoch;
    var v := s[i + 1..];
    MatchAtIs(s, i, LooksLikeEpochAndVersion(v));
    SolidParts(s, i);
    if LooksLikeEpochAndVersion(v) { SolidDrop(v, Digits(v) + 1); }
    var m := MatchAt(s, i, LooksLikeEpochAndVersion(v));
    UnbrokenIs(m.name);
    UnbrokenIs(m.version);
  }

  /** The answer for the second. */
  lemma SecondIsPreferred(s: string)
    ensures var j := LastDash(s, |s|);
            if j.Some? && 0 < j.value < |s| - 1 && Solid(s[..j.value]) then Preferred(false, s, MatchAt(s, j.value, true))
            else forall m :: !Fits(false, s, m)
  {
    hide Solid, Digits, Tail, LooksLikeEpoch, LastDash, MatchAt, IsEpoch, Fits;
    var j := LastDash(s, |s|);
    if j.Some? && 0 < j.value < |s| - 1 && Solid(s[..j.value]) {
      SecondFits(s, j.value);
      var m := MatchAt(s, j.value, true);
      forall o | Fits(false, s, o)
        ensures |o.name| <= |m.name| && (|o.name| == |m.name| && o.epoch.Some? ==> m.epoch.Some?)
      {
        SecondCut(s, o);
        SecondEpoch(s, o);
      }
    } else {
      forall m ensures !Fits(false, s, m) {
        if Fits(false, s, m) {
          SecondCut(s, m);
          CutIs(false, s, m);
          FitsSolid(s, m);
        }
      }
    }
  }

  lemma FitsSolid(s: string, m: Match)
    requires Fits(false, s, m)
    ensures Solid(m.name)
  {
    UnbrokenIs(m.name);
  }

  lemma SecondEpoch(s: string, o: Match)
    requires Fits(false, s, o)
    ensures |o.name| < |s| && (o.epoch.Some? ==> LooksLikeEpoch(s[|o.name| + 1..]))
  {
    CutIs(false, s, o);
    if o.epoch.Some? { TailIs(o); }
  }

  lemma SecondFits(s: string, j: nat)
    requires LastDash(s, |s|) == Some(j) && 0 < j < |s| - 1 && Solid(s[..j])
    ensures var m := MatchAt(s, j, true); Fits(false, s, m) && |m.name| == j && (m.epoch.Some? <==> LooksLikeEpoch(s[j + 1..]))
  {
    hide Digits, Solid, IsEpoch, Tail, NoDash;
    MatchAtIs(s, j, true);
    UnbrokenIs(MatchAt(s, j, true).name);
    var v := s[j + 1..];
    NoDashBehind(s, j);
    if LooksLikeEpoch(v) { NoDashDrop(v, Digits(v) + 1); }
  }

  lemma NoDashBehind(s: string, j: nat)
    requires LastDash(s, |s|) == Some(j)
    ensures NoDash(s[j + 1..])
  {
    var v := s[j + 1..];
    assert forall i :: 0 <= i < |v| ==> v[i] == s[j + 1 + i];
  }

  lemma NoDashDrop(s: string, n: nat)
    requires NoDash(s) && n <= |s|
    ensures NoDash(s[n..])
  {
  }

  /** `split_nevr` takes name, epoch and version of the match that the first expression prefers; if it has none, of
      the one that the second prefers; and fails exactly if neither has one. */
  lemma SplitNevIsPreferred(s: string)
    ensures var r := SplitNev(s);
            && (r.Some? ==>
                  Preferred(true, s, r.value) || ((forall o :: !Fits(true, s, o)) && Preferred(false, s, r.value)))
            && (r.None? <==> forall first, o :: !Fits(first, s, o))
  {
    hide Preferred, Fits, Digits, Solid, LastDash, LastDashDigit, MatchAt;
    FirstIsPreferred(s);
    SecondIsPreferred(s);
    PreferredFits(s);
  }

  lemma PreferredFits(s: string)
    ensures forall first, m :: Preferred(first, s, m) ==> Fits(first, s, m)
  {
  }

  const WRONG := Recipe("a-1b", None, "git", "r0")

  lemma WrongCut()
    ensures LastDashDigit("a-1b-git", 8) == Some(1) && Solid("a-1b-git")
  {
    var t := "a-1b-git";
    assert t == "a-1b" + "-" + "git";
    DashesOf("a-1b", "git");
    assert DashDigit("a-1b", 1) && !DashDigit("a-1b", 2) && !DashDigit("a-1b", 3);
    assert DashDigit(t, 1);
  }

  lemma WrongNev()
    ensures SplitNev("a-1b-git") == Some(Match("a", None, "1b-git"))
  {
    hide LastDashDigit, LastDash, Solid;
    WrongCut();
    var t, v := "a-1b-git", "1b-git";
    assert t[1 + 1..] == v && t[..1] == "a";
    assert v[1] == 'b' && !Digit('b');
    assert Digits(v) <= 1;
  }

  lemma WrongIsWellFormed()
    ensures WellFormed(WRONG)
  {
  }

  /** A version that does not start with a digit, after a name in which a digit follows a dash. */
  lemma WrongSplit()
    ensures WellFormed(WRONG) && Nevr(WRONG) == "a-1b-git-r0"
    ensures SplitNevr(Nevr(WRONG)) == Some(Recipe("a", None, "1b-git", "r0"))
  {
    hide SplitNev, LastDash, Solid, IsEpoch;
    WrongIsWellFormed();
    RevisionIs(WRONG);
    WrongNev();
    hide WellFormed;
    assert Nevr(WRONG) == "a-1b" + "-" + ("git" + "-" + "r0");
    assert WRONG.name + "-" + Ev(WRONG) == "a-1b-git";
  }
}
