/** What a path means: the directory that following its pieces one by one leads to. */
module PathMeaning {
  import opened Paths
  import opened Inotify

  // ---- pieces ---------------------------------------------------------------------------------

  /** Splitting cuts at every separator and loses nothing else. */
  lemma {:induction false} SplitIs(s: string)
    ensures JoinSep(SplitSep(s)) == s && forall i :: 0 <= i < |SplitSep(s)| ==> SEP !in SplitSep(s)[i]
  {
    if s != "" {
      SplitIs(s[1..]);
      var rest := SplitSep(s[1..]);
      assert s == [s[0]] + s[1..];
      if s[0] == SEP {
        assert ([""] + rest)[1..] == rest;
        assert "" + ("/" + JoinSep(rest)) == "/" + JoinSep(rest) == s;
      } else {
        FirstPiece(s[0], rest);
      }
    }
  }

  lemma FirstPiece(c: char, rest: seq<string>)
    requires rest != []
    ensures JoinSep([[c] + rest[0]] + rest[1..]) == [c] + JoinSep(rest)
  {
    var x := [[c] + rest[0]] + rest[1..];
    assert x[1..] == rest[1..];
    if |rest| > 1 { assert ([c] + rest[0]) + ("/" + JoinSep(rest[1..])) == [c] + (rest[0] + ("/" + JoinSep(rest[1..]))); }
  }

  lemma {:induction false} SplitAt(a: string, b: string)
    ensures SplitSep(a + "/" + b) == SplitSep(a) + SplitSep(b)
    decreases |a|
  {
    if a == "" {
      assert a + "/" + b == "/" + b && ("/" + b)[1..] == b;
    } else {
      var s := a + "/" + b;
      assert s[1..] == a[1..] + "/" + b && s[0] == a[0];
      SplitAt(a[1..], b);
      SplitStep(s);
      SplitStep(a);
      hide SplitSep;
      Front(a[0], SplitSep(a[1..]), SplitSep(b));
    }
  }

  function Longer(c: char, pieces: seq<string>): seq<string>
    requires pieces != []
  {
    if c == SEP then [""] + pieces else [[c] + pieces[0]] + pieces[1..]
  }

  lemma SplitStep(s: string)
    requires s != ""
    ensures SplitSep(s) == Longer(s[0], SplitSep(s[1..]))
  {
  }

  lemma Front(c: char, x: seq<string>, y: seq<string>)
    requires x != []
    ensures Longer(c, x + y) == Longer(c, x) + y
  {
    assert (x + y)[0] == x[0] && (x + y)[1..] == x[1..] + y;
  }

  /** Splitting takes apart what was joined. */
  lemma {:induction false} SplitJoined(pieces: seq<string>)
    requires pieces != [] && forall i :: 0 <= i < |pieces| ==> SEP !in pieces[i]
    ensures SplitSep(JoinSep(pieces)) == pieces
  {
    SplitName(pieces[0], "");
    assert pieces[0] + "" == pieces[0];
    if |pieces| > 1 {
      SplitJoined(pieces[1..]);
      var rest := JoinSep(pieces[1..]);
      SplitName(pieces[0], "/" + rest);
      assert ("/" + rest)[1..] == rest;
      assert pieces == [pieces[0]] + pieces[1..];
    } else {
      assert pieces == [pieces[0]];
    }
  }

  // ---- following them -------------------------------------------------------------------------

  /** One piece: nothing or a dot stays, two dots go up, or stay at the root, and a name goes down. */
  function Go(at: seq<string>, piece: string): seq<string> {
    if piece == "" || piece == "." then at
    else if piece == ".." then if at == [] then [] else at[..|at| - 1]
    else at + [piece]
  }

  function GoAll(at: seq<string>, pieces: seq<string>): seq<string>
    decreases |pieces|
  {
    if pieces == [] then at else GoAll(Go(at, pieces[0]), pieces[1..])
  }

  lemma {:induction false} GoAppend(at: seq<string>, a: seq<string>, b: seq<string>)
    ensures GoAll(at, a + b) == GoAll(GoAll(at, a), b)
    decreases |a|
  {
    if a == [] {
      assert a + b == b;
    } else {
      assert (a + b)[1..] == a[1..] + b;
      GoAppend(Go(at, a[0]), a[1..], b);
    }
  }

  predicate NoDots(at: seq<string>) { forall i :: 0 <= i < |at| ==> at[i] != "" && at[i] != "." && at[i] != ".." }

  lemma {:induction false} GoKeepsNoDots(at: seq<string>, pieces: seq<string>)
    requires NoDots(at)
    ensures NoDots(GoAll(at, pieces))
    decreases |pieces|
  {
    if pieces != [] { GoKeepsNoDots(Go(at, pieces[0]), pieces[1..]); }
  }

  lemma {:induction false} CollapseIsGoing(pieces: seq<string>, at: seq<string>)
    requires NoDots(at)
    ensures Collapse(pieces, true, at) == GoAll(at, pieces)
    decreases |pieces|
  {
    if pieces != [] { CollapseIsGoing(pieces[1..], Go(at, pieces[0])); }
  }

  /** Where a path leads: from the root, or from the current directory. */
  function Leads(cwd: seq<string>, p: string): seq<string> {
    GoAll(if p != "" && p[0] == '/' then [] else GoAll([], cwd), SplitSep(p))
  }

  lemma ResolveLeads(cwd: seq<string>, p: string)
    ensures Resolve(cwd, p) == Leads(cwd, p)
  {
    if p != "" && p[0] == SEP {
      CollapseIsGoing(SplitSep(p), []);
    } else {
      CollapseIsGoing(cwd + SplitSep(p), []);
      GoAppend([], cwd, SplitSep(p));
    }
  }

  // ---- joining --------------------------------------------------------------------------------

  lemma GoOne(at: seq<string>, n: string)
    requires ProperName(n)
    ensures GoAll(at, [n]) == at + [n] && GoAll(at, [""]) == at
  {
    assert [n][1..] == [] && [""][1..] == [];
  }

  lemma SplitOne(n: string)
    requires SEP !in n
    ensures SplitSep(n) == [n]
  {
    SplitName(n, "");
    assert n + "" == n;
  }

  /** A path with a separator at its end leads to where it leads without. */
  lemma EndLeads(at: seq<string>, q: string, n: string)
    requires ProperName(n)
    ensures GoAll(at, SplitSep(q + "/")) == GoAll(at, SplitSep(q))
    ensures GoAll(at, SplitSep(q + "/" + n)) == GoAll(at, SplitSep(q)) + [n]
  {
    SplitAt(q, "");
    SplitAt(q, n);
    SplitOne("");
    SplitOne(n);
    assert q + "/" + "" == q + "/";
    hide SplitSep, GoAll;
    GoAppend(at, SplitSep(q), [""]);
    GoAppend(at, SplitSep(q), [n]);
    GoOne(GoAll(at, SplitSep(q)), n);
  }

  lemma JoinCases(p: string, n: string)
    requires ProperName(n)
    ensures if p == "" then Join(p, n) == n
            else if p[|p| - 1] == SEP then p == p[..|p| - 1] + "/" && Join(p, n) == p[..|p| - 1] + "/" + n
            else Join(p, n) == p + "/" + n
    ensures (Join(p, n) != "" && Join(p, n)[0] == SEP) <==> (p != "" && p[0] == SEP)
  {
    assert n[0] in n && "" + n == n;
  }

  /** The path of an entry leads to that entry of the directory that the path leads to. */
  lemma JoinLeads(cwd: seq<string>, p: string, n: string)
    requires ProperName(n)
    ensures Leads(cwd, Join(p, n)) == Leads(cwd, p) + [n]
  {
    var start := if p != "" && p[0] == '/' then [] else GoAll([], cwd);
    JoinCases(p, n);
    SplitOne("");
    SplitOne(n);
    GoOne(start, n);
    hide Join, SplitSep, GoAll, ProperName;
    if p != "" {
      EndLeads(start, p, n);
      EndLeads(start, p[..|p| - 1], n);
    }
  }

  // ---- normalising ----------------------------------------------------------------------------

  /** What is kept of a relative path: some double dots, and names behind them. */
  predicate Kept(ks: seq<string>) {
    && (forall i :: 0 <= i < |ks| ==> ks[i] != "" && ks[i] != "." && SEP !in ks[i])
    && (forall i :: 0 < i < |ks| && ks[i] == ".." ==> ks[i - 1] == "..")
  }

  lemma GoSnoc(at: seq<string>, ks: seq<string>, c: string)
    ensures GoAll(at, ks + [c]) == Go(GoAll(at, ks), c)
  {
    GoAppend(at, ks, [c]);
    assert [c][1..] == [];
  }

  lemma KeptMore(ks: seq<string>, c: string)
    requires Kept(ks) && c != "" && c != "." && SEP !in c
    ensures c != ".." || ks == [] || ks[|ks| - 1] == ".." ==> Kept(ks + [c])
    ensures NoDots(ks) && c != ".." ==> NoDots(ks + [c])
  {
  }

  /** Taking away the last name is going up. */
  lemma KeptLess(at: seq<string>, ks: seq<string>)
    requires Kept(ks) && ks != [] && ks[|ks| - 1] != ".."
    ensures var less := ks[..|ks| - 1];
            Kept(less) && GoAll(at, less) == Go(GoAll(at, ks), "..") && (NoDots(ks) ==> NoDots(less))
  {
    var less, c := ks[..|ks| - 1], ks[|ks| - 1];
    assert ks == less + [c];
    GoSnoc(at, less, c);
    var x := GoAll(at, less);
    assert (x + [c])[..|x|] == x;
  }

  lemma GoFirst(at: seq<string>, pieces: seq<string>)
    requires pieces != []
    ensures GoAll(at, pieces) == GoAll(Go(at, pieces[0]), pieces[1..])
  {
  }

  lemma CollapseStep(pieces: seq<string>, rooted: bool, ks: seq<string>)
    requires pieces != []
    ensures var c, rest := pieces[0], pieces[1..];
            Collapse(pieces, rooted, ks) ==
            if c == "" || c == "." then Collapse(rest, rooted, ks)
            else if c != ".." || (!rooted && ks == []) || (ks != [] && ks[|ks| - 1] == "..") then Collapse(rest, rooted, ks + [c])
            else if ks != [] then Collapse(rest, rooted, ks[..|ks| - 1])
            else Collapse(rest, rooted, ks)
  {
  }

  lemma NoDotsLast(ks: seq<string>)
    ensures NoDots(ks) && ks != [] ==> ks[|ks| - 1] != ".."
    ensures GoAll([], []) == [] && Go([], "..") == []
  {
  }

  /** Collapsing what is relative leads to the same place from anywhere. */
  lemma {:induction false} CollapseLeads(pieces: seq<string>, rooted: bool, ks: seq<string>, at: seq<string>)
    requires Kept(ks) && (rooted ==> at == [] && NoDots(ks)) && forall i :: 0 <= i < |pieces| ==> SEP !in pieces[i]
    ensures GoAll(at, Collapse(pieces, rooted, ks)) == GoAll(GoAll(at, ks), pieces)
    ensures Kept(Collapse(pieces, rooted, ks)) && (rooted ==> NoDots(Collapse(pieces, rooted, ks)))
    decreases |pieces|
  {
    if pieces != [] {
      var c, rest := pieces[0], pieces[1..];
      assert forall i :: 0 <= i < |rest| ==> rest[i] == pieces[i + 1];
      GoFirst(GoAll(at, ks), pieces);
      CollapseStep(pieces, rooted, ks);
      NoDotsLast(ks);
      assert c == "" || c == "." ==> Go(GoAll(at, ks), c) == GoAll(at, ks);
      hide GoAll, Collapse, Kept, NoDots, Go;
      if c == "" || c == "." {
        CollapseLeads(rest, rooted, ks, at);
      } else if c != ".." || (!rooted && ks == []) || (ks != [] && ks[|ks| - 1] == "..") {
        KeptMore(ks, c);
        GoSnoc(at, ks, c);
        CollapseLeads(rest, rooted, ks + [c], at);
      } else if ks != [] {
        KeptLess(at, ks);
        CollapseLeads(rest, rooted, ks[..|ks| - 1], at);
      } else {
        CollapseLeads(rest, rooted, ks, at);
      }
    }
  }

  /** Normalising keeps what any path means, wherever it is relative to. */
  lemma NormLeads(cwd: seq<string>, p: string)
    ensures Leads(cwd, NormPath(p)) == Leads(cwd, p)
  {
    var pieces, start := SplitSep(p), GoAll([], cwd);
    SplitIs(p);
    if p == "" {
      assert SplitSep(".") == ["."] by { SplitName(".", ""); assert "." + "" == "."; }
      assert ["."][1..] == [] && [""][1..] == [];
    } else if p[0] != SEP {
      var ks := Collapse(pieces, false, []);
      CollapseLeads(pieces, false, [], start);
      if ks == [] {
        assert "" + JoinSep(ks) == "";
        assert SplitSep(".") == ["."] by { SplitName(".", ""); assert "." + "" == "."; }
        assert ["."][1..] == [];
      } else {
        var body := JoinSep(ks);
        SplitJoined(ks);
        FirstOf(ks);
        assert "" + body == body;
      }
    } else {
      var ks := Collapse(pieces, true, []);
      CollapseLeads(pieces, true, [], []);
      RootedLeads(ks);
    }
  }

  lemma FirstOf(ks: seq<string>)
    requires ks != [] && Kept(ks)
    ensures JoinSep(ks) != "" && JoinSep(ks)[0] != SEP
  {
    assert ks[0] != "" && SEP !in ks[0] && ks[0][0] in ks[0];
  }

  lemma SlashFirst(s: string)
    ensures SplitSep("/" + s) == [""] + SplitSep(s)
  {
    SplitStep("/" + s);
    assert ("/" + s)[1..] == s;
  }

  lemma NoPieceFirst(at: seq<string>, pieces: seq<string>)
    ensures GoAll(at, [""] + pieces) == GoAll(at, pieces)
  {
    assert ([""] + pieces)[1..] == pieces;
  }

  lemma SlashLeads(s: string)
    ensures GoAll([], SplitSep("/" + s)) == GoAll([], SplitSep(s))
  {
    SlashFirst(s);
    hide SplitSep, GoAll;
    NoPieceFirst([], SplitSep(s));
  }

  lemma JoinedLeads(ks: seq<string>)
    requires Kept(ks)
    ensures GoAll([], SplitSep(JoinSep(ks))) == GoAll([], ks)
  {
    if ks == [] {
      assert JoinSep(ks) == "" && SplitSep("") == [""] && [""][1..] == [];
    } else {
      SplitJoined(ks);
    }
  }

  lemma RootedLeads(ks: seq<string>)
    requires Kept(ks)
    ensures GoAll([], SplitSep("/" + JoinSep(ks))) == GoAll([], ks) == GoAll([], SplitSep("//" + JoinSep(ks)))
  {
    hide SplitSep, GoAll, JoinSep, Kept;
    JoinedLeads(ks);
    SlashLeads(JoinSep(ks));
    SlashLeads("/" + JoinSep(ks));
    assert "/" + ("/" + JoinSep(ks)) == "//" + JoinSep(ks);
  }
}
