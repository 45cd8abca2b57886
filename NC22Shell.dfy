/**
 * `NC22InteractiveShell`: a console loop over dotted commands.  Before each
 * prompt it computes the completions offered under the session's path;
 * after each answer it quits, lists, moves to the parent path, or descends
 * into a command when some known command starts with the new path.
 * Reading the answer is a parameter of `Step`; the calls made on the shell
 * client are recorded in `calls`.
 */
module NC22Shell {
  import opened PhpStrings
  import opened ShellSession

  // ---------------------------------------------------------------- sorting

  /** Byte-wise string order. */
  predicate LexLe(a: string, b: string)
    decreases |a|
  {
    |a| == 0 || (|b| > 0 && (a[0] < b[0] || (a[0] == b[0] && LexLe(a[1..], b[1..]))))
  }

  lemma {:induction false} LexTotal(a: string, b: string)
    ensures LexLe(a, b) || LexLe(b, a)
    decreases |a|
  {
    if |a| > 0 && |b| > 0 && a[0] == b[0] {
      LexTotal(a[1..], b[1..]);
    }
  }

  predicate Sorted(s: seq<string>)
  {
    forall i :: 0 < i < |s| ==> LexLe(s[i - 1], s[i])
  }

  /** `x` put before the first element it does not follow. */
  function Insert(x: string, s: seq<string>): (r: seq<string>)
    requires Sorted(s)
    ensures Sorted(r)
    ensures |r| == |s| + 1
    ensures multiset(r) == multiset(s) + multiset{x}
    ensures |s| > 0 ==> r[0] == x || r[0] == s[0]
    ensures |s| == 0 ==> r == [x]
  {
    if |s| == 0 then [x]
    else if LexLe(x, s[0]) then [x] + s
    else
      LexTotal(x, s[0]);
      var t := Insert(x, s[1..]);
      assert s == [s[0]] + s[1..];
      [s[0]] + t
  }

  /** `sort($commands)`: the same strings, in order. */
  function SortStrings(s: seq<string>): (r: seq<string>)
    ensures Sorted(r)
    ensures |r| == |s|
    ensures multiset(r) == multiset(s)
  {
    if |s| == 0 then []
    else
      assert s == [s[0]] + s[1..];
      Insert(s[0], SortStrings(s[1..]))
  }

  // ------------------------------------------------------------ completions

  /** A value `array_filter` keeps. */
  predicate Truthy(s: string)
  {
    s != "" && s != "0"
  }

  /** `array_filter` over strings, order kept. */
  function KeepTruthy(xs: seq<string>): (r: seq<string>)
    ensures forall x :: x in r <==> x in xs && Truthy(x)
    ensures |r| <= |xs|
  {
    if |xs| == 0 then []
    else
      var init := xs[..|xs| - 1];
      var last := xs[|xs| - 1];
      assert xs == init + [last];
      KeepTruthy(init) + (if Truthy(last) then [last] else [])
  }

  lemma {:induction false} KeepTruthyAppend(a: seq<string>, b: seq<string>)
    ensures KeepTruthy(a + b) == KeepTruthy(a) + KeepTruthy(b)
    decreases |b|
  {
    if |b| > 0 {
      var init := b[..|b| - 1];
      assert (a + b)[..|a + b| - 1] == a + init;
      KeepTruthyAppend(a, init);
    } else {
      assert a + b == a;
    }
  }

  lemma {:induction false} KeepTruthyIdempotent(a: seq<string>)
    ensures KeepTruthy(KeepTruthy(a)) == KeepTruthy(a)
    decreases |a|
  {
    if |a| > 0 {
      var init := a[..|a| - 1];
      var last := a[|a| - 1];
      KeepTruthyIdempotent(init);
      KeepTruthyAppend(KeepTruthy(init), if Truthy(last) then [last] else []);
    }
  }

  /** The parts joined, each followed by one space. */
  function Spaced(parts: seq<string>): string
  {
    if |parts| == 0 then "" else Spaced(parts[..|parts| - 1]) + parts[|parts| - 1] + " "
  }

  const Space: set<char> := {' '}

  /** The completions one command offers: its first 1, 2, ... parts, space-separated. */
  function Offers(parts: seq<string>): (r: seq<string>)
    ensures |r| == |parts|
    ensures |parts| > 0 ==> r[|r| - 1] == Trim(Spaced(parts), Space)
  {
    if |parts| == 0 then []
    else Offers(parts[..|parts| - 1]) + [Trim(Spaced(parts), Space)]
  }

  /** The offers of the first `n` parts are the first `n` offers. */
  lemma {:induction false} OffersPrefix(parts: seq<string>, n: nat)
    requires n <= |parts|
    ensures Offers(parts[..n]) == Offers(parts)[..n]
    decreases |parts|
  {
    if n == |parts| {
      assert parts[..n] == parts;
    } else {
      var init := parts[..|parts| - 1];
      TakeOfInit(parts, n);
      OffersPrefix(init, n);
      TakeSnoc(Offers(init), Trim(Spaced(parts), Space), n);
    }
  }

  /** A prefix no longer than the front part is a prefix of the front part. */
  lemma TakeOfInit<T>(s: seq<T>, n: nat)
    requires n < |s|
    ensures s[..|s| - 1][..n] == s[..n]
  {
  }

  /** Taking at most the length of `a` from `a + [x]` takes from `a`. */
  lemma TakeSnoc<T>(a: seq<T>, x: T, n: nat)
    requires n <= |a|
    ensures (a + [x])[..n] == a[..n]
  {
  }

  /** Offer `i` is the first `i + 1` parts, each followed by a space, trimmed. */
  lemma OffersAt(parts: seq<string>, i: nat)
    requires i < |parts|
    ensures Offers(parts)[i] == Trim(Spaced(parts[..i + 1]), Space)
  {
    OffersPrefix(parts, i + 1);
  }

  /** The command is offered under `path`: the path is empty or starts it. */
  predicate Under(command: string, path: string)
  {
    path == "" || path <= command
  }

  /** What the command offers under `path`: the remainder after the path, split on dots. */
  function OffersUnder(command: string, path: string): seq<string>
  {
    if Under(command, path) then Offers(Explode('.', command[|path|..])) else []
  }

  /** Every command's offers, in command order, before filtering. */
  function Candidates(commands: seq<string>, path: string): seq<string>
  {
    if |commands| == 0 then []
    else Candidates(commands[..|commands| - 1], path) + OffersUnder(commands[|commands| - 1], path)
  }

  /** The completions `manageAvailableCommands` hands to the session. */
  function Available(commands: seq<string>, path: string): (r: seq<string>)
    ensures forall x :: x in r ==> Truthy(x)
    ensures forall i, j :: 0 <= i < j < |r| ==> r[i] != r[j]
  {
    Dedup(KeepTruthy(Candidates(commands, path)))
  }

  lemma {:induction false} SpacedCons(a: string, parts: seq<string>)
    ensures Spaced([a] + parts) == a + " " + Spaced(parts)
    decreases |parts|
  {
    if |parts| > 0 {
      var all := [a] + parts;
      assert all[..|all| - 1] == [a] + parts[..|parts| - 1];
      SpacedCons(a, parts[..|parts| - 1]);
    } else {
      assert [a] + parts == [a];
      assert Spaced([a]) == Spaced([]) + a + " ";
    }
  }

  lemma ReplaceDotAfter(head: string, rest: string)
    requires '.' !in head
    ensures ReplaceChar(head + ['.'] + rest, '.', ' ') == head + " " + ReplaceChar(rest, '.', ' ')
  {
    ReplaceCharConcat(head + ['.'], rest, '.', ' ');
    ReplaceCharConcat(head, ['.'], '.', ' ');
    assert ReplaceChar(head, '.', ' ') == head;
  }

  /** Splitting on dots and re-joining with spaces reads every dot as a space. */
  lemma {:induction false} SpacedExplode(s: string)
    ensures Spaced(Explode('.', s)) == ReplaceChar(s, '.', ' ') + " "
    decreases |s|
  {
    match IndexOf(s, '.')
    case None =>
      assert Explode('.', s) == [s];
      assert ReplaceChar(s, '.', ' ') == s;
      assert Spaced([s]) == Spaced([]) + s + " ";
    case Some(i) =>
      var head, rest := s[..i], s[i + 1..];
      var tail := Explode('.', rest);
      assert Spaced(Explode('.', s)) == head + " " + Spaced(tail) by {
        assert Explode('.', s) == [head] + tail;
        SpacedCons(head, tail);
      }
      assert ReplaceChar(s, '.', ' ') == head + " " + ReplaceChar(rest, '.', ' ') by {
        assert s == head + ['.'] + rest;
        ReplaceDotAfter(head, rest);
      }
      SpacedExplode(rest);
      AppendAssoc(head + " ", ReplaceChar(rest, '.', ' '), " ");
  }

  /** The deepest completion a command offers is its remainder with dots read as spaces. */
  lemma DeepestOffer(rest: string)
    ensures var o := Offers(Explode('.', rest));
            |o| > 0 && o[|o| - 1] == Trim(ReplaceChar(rest, '.', ' '), Space)
  {
    var parts := Explode('.', rest);
    assert parts[..|parts|] == parts;
    SpacedExplode(rest);
    TrimSnoc(ReplaceChar(rest, '.', ' '), ' ', Space);
  }

  /** One more command adds its offers to the candidates. */
  lemma CandidatesStep(commands: seq<string>, path: string, i: nat)
    requires i < |commands|
    ensures Candidates(commands[..i + 1], path) == Candidates(commands[..i], path) + OffersUnder(commands[i], path)
  {
    assert commands[..i + 1][..i] == commands[..i];
  }

  /** Filtering what was already filtered, plus new offers, is filtering everything once. */
  lemma KeepTruthyStep(a: seq<string>, b: seq<string>)
    ensures KeepTruthy(KeepTruthy(a) + b) == KeepTruthy(a + b)
  {
    KeepTruthyIdempotent(a);
    KeepTruthyAppend(KeepTruthy(a), b);
    KeepTruthyAppend(a, b);
  }

  lemma {:induction false} CandidatesCover(commands: seq<string>, path: string, i: nat)
    requires i < |commands|
    ensures forall x :: x in OffersUnder(commands[i], path) ==> x in Candidates(commands, path)
    decreases |commands|
  {
    if i < |commands| - 1 {
      var init := commands[..|commands| - 1];
      CandidatesCover(init, path, i);
    }
  }

  /**
   * Every known command under the path is completed down to its full
   * remainder (unless that reads as empty or "0").
   */
  lemma FullCompletionOffered(commands: seq<string>, path: string, i: nat)
    requires i < |commands| && Under(commands[i], path)
    ensures var full := Trim(ReplaceChar(commands[i][|path|..], '.', ' '), Space);
            Truthy(full) ==> full in Available(commands, path)
  {
    DeepestOffer(commands[i][|path|..]);
    CandidatesCover(commands, path, i);
  }

  /** Only commands under the path contribute completions. */
  lemma {:induction false} CandidatesOnlyUnder(commands: seq<string>, path: string)
    requires forall i :: 0 <= i < |commands| ==> !Under(commands[i], path)
    ensures Candidates(commands, path) == [] && Available(commands, path) == []
    decreases |commands|
  {
    if |commands| > 0 {
      var init := commands[..|commands| - 1];
      assert forall i :: 0 <= i < |init| ==> init[i] == commands[i];
      CandidatesOnlyUnder(init, path);
    }
    assert KeepTruthy([]) == [];
  }

  /** The commands listed on 'help': those without a space. */
  function TopLevel(commands: seq<string>): (r: seq<string>)
    ensures forall x :: x in r <==> x in commands && ' ' !in x
  {
    if |commands| == 0 then []
    else
      var init := commands[..|commands| - 1];
      var last := commands[|commands| - 1];
      assert commands == init + [last];
      TopLevel(init) + (if ' ' !in last then [last] else [])
  }
  lemma TopLevelStep(commands: seq<string>, i: nat)
    requires i < |commands|
    ensures TopLevel(commands[..i + 1]) == TopLevel(commands[..i]) + (if ' ' !in commands[i] then [commands[i]] else [])
  {
    assert commands[..i + 1][..i] == commands[..i];
  }


  // ------------------------------------------------------------------ steps

  /** An answer that ends the loop (`exit()`). */
  predicate IsQuit(current: string)
  {
    current == "quit" || current == "q" || current == "exit"
  }

  predicate IsHelp(current: string)
  {
    current == "?" || current == "help"
  }

  /** The session path after one lowercased answer. */
  function NextPath(path: string, current: string, commands: seq<string>): string
  {
    if IsQuit(current) || IsHelp(current) then path
    else if current == "" then ParentOf(path)
    else
      var target := PathWith(path, ReplaceChar(current, ' ', '.'));
      if SomeStartsWith(commands, target) then target else path
  }

  /** The path leads somewhere: it is empty or some command starts with it. */
  predicate Leads(path: string, commands: seq<string>)
  {
    path == "" || SomeStartsWith(commands, path)
  }

  /** No answer moves the session to a path that no command starts with. */
  lemma NextPathLeads(path: string, current: string, commands: seq<string>)
    requires Leads(path, commands)
    ensures Leads(NextPath(path, current, commands), commands)
  {
    if !IsQuit(current) && !IsHelp(current) && current == "" {
      ParentIsPrefix(path);
      if path != "" {
        var i :| 0 <= i < |commands| && path <= commands[i];
        assert ParentOf(path) <= commands[i];
      }
    }
  }

  /** A plain word that starts a known command is entered below the current path. */
  lemma NextPathDescends(path: string, word: string, commands: seq<string>)
    requires word != "" && ' ' !in word && '.' !in word
    requires !IsQuit(word) && !IsHelp(word)
    requires Trimmed(path)
    requires SomeStartsWith(commands, PathWith(path, word))
    ensures NextPath(path, word, commands) == Trim(path + "." + word, Dot)
    ensures ParentOf(NextPath(path, word, commands)) == path
  {
    assert ReplaceChar(word, ' ', '.') == word;
    AddPathIsPathWith(path, word);
    AddPathThenParent(path, word);
  }

  /** One answer, as `run` dispatches it. */
  datatype Outcome = Quit | Listed(lines: seq<string>) | Continued

  /** A call made on the shell client. */
  datatype ClientCall = NewPrompt | NewCommand(command: string)

  class NC22InteractiveShell {
    var commands: seq<string>
    var calls: seq<ClientCall>

    constructor ()
      ensures commands == [] && calls == []
    {
      commands := [];
      calls := [];
    }

    /** `setCommands($commands)`: sorted, then 'quit' and 'help'. */
    method SetCommands(commands: seq<string>)
      modifies this
      ensures this.commands == SortStrings(commands) + ["quit", "help"]
      ensures Sorted(this.commands[..|commands|])
      ensures multiset(this.commands[..|commands|]) == multiset(commands)
      ensures calls == old(calls)
    {
      this.commands := SortStrings(commands) + ["quit", "help"];
      assert this.commands[..|commands|] == SortStrings(commands);
    }

    /** `addCommand($command)`. */
    method AddCommand(command: string)
      modifies this
      ensures commands == old(commands) + [command]
      ensures calls == old(calls)
    {
      commands := commands + [command];
    }

    /** The start of `run`: a new session when none is given, then the commands handed to it. */
    method Begin(session: NC22InteractiveShellSession?) returns (s: NC22InteractiveShellSession)
      modifies session
      ensures session != null ==> s == session && s.path == old(session.path)
      ensures session == null ==> fresh(s) && s.path == "" && s.availableCommands == []
      ensures s.commands == commands
    {
      if session == null {
        s := new NC22InteractiveShellSession();
      } else {
        s := session;
      }
      s.SetCommands(commands);
    }

    /** `manageAvailableCommands($session)`. */
    method ManageAvailableCommands(session: NC22InteractiveShellSession)
      modifies session`availableCommands
      ensures session.availableCommands == Available(commands, session.path)
    {
      var path := session.GetPath("");
      var available: seq<string> := [];
      var i := 0;
      while i < |commands|
        invariant 0 <= i <= |commands|
        invariant available == KeepTruthy(Candidates(commands[..i], path))
      {
        var command := commands[i];
        CandidatesStep(commands, path, i);
        if path != "" && !(path <= command) {
          assert OffersUnder(command, path) == [];
          assert Candidates(commands[..i], path) + [] == Candidates(commands[..i], path);
          i := i + 1;
          continue;
        }
        var offers := CommandOffers(Explode('.', command[|path|..]));
        KeepTruthyStep(Candidates(commands[..i], path), offers);
        available := KeepTruthy(available + offers);
        i := i + 1;
      }
      assert commands[..i] == commands;
      session.SetAvailableCommands(available);
    }

    /** The inner loop of `manageAvailableCommands`: the parts of one command, accumulated. */
    method CommandOffers(items: seq<string>) returns (offers: seq<string>)
      ensures offers == Offers(items)
    {
      offers := [];
      var current := "";
      var j := 0;
      while j < |items|
        invariant 0 <= j <= |items|
        invariant current == Spaced(items[..j])
        invariant offers == Offers(items[..j])
      {
        assert items[..j + 1][..j] == items[..j];
        current := current + items[j] + " ";
        offers := offers + [Trim(current, Space)];
        j := j + 1;
      }
      assert items[..j] == items;
    }

    /** `listCurrentAvailableCommands($commands)`: the lines written. */
    method ListCurrentAvailableCommands(commands: seq<string>) returns (lines: seq<string>)
      ensures lines == TopLevel(commands)
    {
      lines := [];
      var i := 0;
      while i < |commands|
        invariant 0 <= i <= |commands|
        invariant lines == TopLevel(commands[..i])
      {
        TopLevelStep(commands, i);
        if ' ' !in commands[i] {
          lines := lines + [commands[i]];
        }
        i := i + 1;
      }
      assert commands[..i] == commands;
    }

    /** `manageCommand($session, $command)`. */
    method ManageCommand(session: NC22InteractiveShellSession, command: string)
      modifies this, session
      ensures var cmd := ReplaceChar(command, ' ', '.');
              var accepted := SomeStartsWith(commands, PathWith(old(session.path), cmd));
              session.path == (if accepted then Trim(old(session.path) + "." + cmd, Dot) else old(session.path))
              && calls == old(calls) + (if accepted then [NewCommand(cmd)] else [])
      ensures commands == old(commands)
      ensures session.Others() == old(session.Others())
    {
      var cmd := ReplaceChar(command, ' ', '.');
      var accepted := session.IsCommandAvailable(commands, cmd);
      if !accepted {
        return;
      }
      session.AddPath(cmd);
      calls := calls + [NewCommand(cmd)];
    }

    /**
     * One pass of the `run` loop: the client is told of the new prompt, the
     * completions are computed, and `answer` is dispatched.
     */
    method Step(session: NC22InteractiveShellSession, answer: string) returns (o: Outcome)
      modifies this, session
      ensures var current := Lower(answer);
              session.path == NextPath(old(session.path), current, commands)
              && (o == Quit <==> IsQuit(current))
              && (o.Listed? <==> IsHelp(current))
              && (o.Listed? ==> o.lines == TopLevel(Available(commands, old(session.path)) + session.globalCommands))
      ensures commands == old(commands)
      ensures |calls| > |old(calls)| && calls[..|old(calls)| + 1] == old(calls) + [NewPrompt]
      ensures session.availableCommands == Available(commands, old(session.path))
      ensures Leads(old(session.path), commands) ==> Leads(session.path, commands)
    {
      calls := calls + [NewPrompt];
      ghost var afterPrompt := calls;
      ManageAvailableCommands(session);
      var current := Lower(answer);
      var path := session.path;
      if IsQuit(current) {
        o := Quit;
      } else if IsHelp(current) {
        var all := session.GetAvailableCommands();
        var lines := ListCurrentAvailableCommands(all);
        o := Listed(lines);
      } else if current == "" {
        session.GoParent();
        o := Continued;
      } else {
        ManageCommand(session, current);
        o := Continued;
      }
      assert calls[..|afterPrompt|] == afterPrompt;
      if Leads(path, commands) {
        NextPathLeads(path, current, commands);
      }
    }
  }
}
