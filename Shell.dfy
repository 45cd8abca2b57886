/**
 * `InteractiveShell`: the first console loop.  The path is a local of
 * `run`; before each prompt the completions are rebuilt from the dotted
 * command list, where a segment `?source_field` is expanded by the client's
 * `fillCommandList`.  The client's `manageCommand` outcome and
 * `fillCommandList` are parameters.
 */
module Shell {
  import opened Wrappers
  import opened PhpStrings
  import opened NC22Shell
  import StringTools

  /** How the client's `manageCommand` ended: normally or with one of its four exceptions. */
  datatype ClientResult =
    | Handled
    | MissingCommand
    | MissingItem(message: string)
    | UnknownItem(message: string)
    | UnknownCommand(message: string)

  /** One pass of `run`: `TypeFailure` is the `TypeError` a `?source` segment without '_' raises. */
  datatype StepOutcome =
    | Exit
    | TypeFailure
    | Help(lines: seq<string>)
    | Next(path: string, written: seq<string>)

  // ------------------------------------------------------ completion lists

  /** `$r . ' ' . $sub`, or `$sub` alone after the empty root. */
  function Join(r: string, sub: string): string
  {
    if r == "" then sub else r + " " + sub
  }

  /** `sub` after every root, in root order. */
  function Row(sub: string, root: seq<string>): (r: seq<string>)
    ensures |r| == |root|
  {
    if |root| == 0 then [] else Row(sub, root[..|root| - 1]) + [Join(root[|root| - 1], sub)]
  }

  /** The new root: every listed value after every root, list-major. */
  function Product(list: seq<string>, root: seq<string>): (r: seq<string>)
    ensures |r| == |list| * |root|
  {
    if |list| == 0 then [] else Product(list[..|list| - 1], root) + Row(list[|list| - 1], root)
  }

  /**
   * The list with each value of `xs` appended unless an equal one is already
   * there: `in_array` without the strict flag, so numeric strings that
   * denote the same number count as equal.
   */
  function AddMissing(commands: seq<string>, xs: seq<string>): (r: seq<string>)
    ensures commands <= r
    ensures forall x :: x in r ==> x in commands || x in xs
    ensures (forall i, j :: 0 <= i < j < |commands| ==> commands[i] != commands[j])
            ==> forall i, j :: 0 <= i < j < |r| ==> r[i] != r[j]
  {
    if |xs| == 0 then commands
    else
      var a := AddMissing(commands, xs[..|xs| - 1]);
      var x := xs[|xs| - 1];
      assert xs == xs[..|xs| - 1] + [x];
      if LooselyIn(x, a) then a
      else
        assert forall i :: 0 <= i < |a| ==> a[i] != x by {
          LooseEqualsReflexive(x);
        }
        a + [x]
  }

  /** Every value of `xs` ends up with a loosely equal one in the list. */
  lemma {:induction false} AddMissingCovers(commands: seq<string>, xs: seq<string>)
    ensures forall i :: 0 <= i < |xs| ==> LooselyIn(xs[i], AddMissing(commands, xs))
    decreases |xs|
  {
    if |xs| > 0 {
      var init, x := xs[..|xs| - 1], xs[|xs| - 1];
      AddMissingCovers(commands, init);
      var a := AddMissing(commands, init);
      var r := AddMissing(commands, xs);
      assert r == if LooselyIn(x, a) then a else a + [x];
      forall i | 0 <= i < |xs|
        ensures LooselyIn(xs[i], r)
      {
        if i < |init| {
          assert xs[i] == init[i];
          LooselyInPrefix(init[i], a, r);
        } else {
          assert i == |xs| - 1;
          if !LooselyIn(x, a) {
            LooselyInAppended(x, a);
          }
        }
      }
    }
  }

  /** No two commands of the list are loosely equal. */
  predicate LooselyDistinct(commands: seq<string>)
  {
    forall i, j :: 0 <= i < j < |commands| ==> !LooseEquals(commands[i], commands[j])
  }

  /** A list without two loosely equal values stays so. */
  lemma AddMissingDistinct(commands: seq<string>, xs: seq<string>)
    requires LooselyDistinct(commands)
    ensures LooselyDistinct(AddMissing(commands, xs))
  {
    var r := AddMissing(commands, xs);
    forall i, j | 0 <= i < j < |r|
      ensures !LooseEquals(r[i], r[j])
    {
      AddMissingApart(commands, xs, i, j);
    }
  }

  /** Two positions of the list hold values that are not loosely equal. */
  lemma {:induction false} AddMissingApart(commands: seq<string>, xs: seq<string>, i: nat, j: nat)
    requires LooselyDistinct(commands)
    requires i < j < |AddMissing(commands, xs)|
    ensures !LooseEquals(AddMissing(commands, xs)[i], AddMissing(commands, xs)[j])
    decreases |xs|
  {
    if |xs| > 0 {
      var init, x := xs[..|xs| - 1], xs[|xs| - 1];
      assert xs == init + [x];
      var a := AddMissing(commands, init);
      var r := AddMissing(commands, xs);
      if j < |a| {
        AddMissingApart(commands, init, i, j);
        assert r[i] == a[i] && r[j] == a[j];
      } else {
        assert r == a + [x] && !LooselyIn(x, a);
        assert r[i] == a[i] && r[j] == x;
      }
    }
  }

  /** The values a segment stands for; `None` when a `?` segment has no '_'. */
  function SubList(sub: string, fill: (string, string) -> seq<string>): Option<seq<string>>
  {
    if |sub| > 0 && sub[0] == '?' then
      var parts := Explode('_', sub[1..]);
      if |parts| < 2 then None else Some(fill(parts[0], parts[1]))
    else Some([sub])
  }

  /** `parseSubCommand($commands, $root, $sub)`: the new commands and the new root. */
  function ParseSub(commands: seq<string>, root: seq<string>, sub: string,
                    fill: (string, string) -> seq<string>): Option<(seq<string>, seq<string>)>
  {
    match SubList(sub, fill)
    case None => None
    case Some(list) => Some((AddMissing(commands, Product(list, root)), Product(list, root)))
  }

  /** The segment is skipped: it repeats the path's segment at the same depth. */
  predicate Skipped(list: seq<string>, subPath: seq<string>, i: nat)
    requires i < |list|
  {
    i < |subPath| && list[i] == subPath[i]
  }

  /** The commands and root after the first `n` segments of one entry. */
  function Walk(commands: seq<string>, list: seq<string>, subPath: seq<string>,
                fill: (string, string) -> seq<string>, n: nat): Option<(seq<string>, seq<string>)>
    requires n <= |list|
  {
    if n == 0 then Some((commands, [""]))
    else match Walk(commands, list, subPath, fill, n - 1)
      case None => None
      case Some(state) =>
        if Skipped(list, subPath, n - 1) then Some(state)
        else ParseSub(state.0, state.1, list[n - 1], fill)
  }

  /** The entry is looked at: the path is empty or occurs in it. */
  predicate Relevant(entry: string, path: string)
  {
    path == "" || Contains(path, entry)
  }

  /** `availableCommands($path)` over the entries. */
  function Collect(entries: seq<string>, path: string, fill: (string, string) -> seq<string>): Option<seq<string>>
  {
    if |entries| == 0 then Some([])
    else match Collect(entries[..|entries| - 1], path, fill)
      case None => None
      case Some(c) =>
        var entry := entries[|entries| - 1];
        if !Relevant(entry, path) then Some(c)
        else
          var list := Explode('.', entry);
          match Walk(c, list, Explode('.', path), fill, |list|)
          case None => None
          case Some(state) => Some(state.0)
  }

  lemma {:induction false} WalkStuck(commands: seq<string>, list: seq<string>, subPath: seq<string>,
                                     fill: (string, string) -> seq<string>, n: nat, m: nat)
    requires n <= m <= |list|
    requires Walk(commands, list, subPath, fill, n).None?
    ensures Walk(commands, list, subPath, fill, m).None?
    decreases m
  {
    if n < m {
      WalkStuck(commands, list, subPath, fill, n, m - 1);
    }
  }

  lemma {:induction false} CollectStuck(entries: seq<string>, path: string,
                                        fill: (string, string) -> seq<string>, k: nat)
    requires k <= |entries|
    requires Collect(entries[..k], path, fill).None?
    ensures Collect(entries, path, fill).None?
    decreases |entries|
  {
    if k == |entries| {
      assert entries[..k] == entries;
    } else {
      var init := entries[..|entries| - 1];
      assert init[..k] == entries[..k];
      CollectStuck(init, path, fill, k);
    }
  }

  /** Each step of a walk keeps the commands found so far, and adds no repeats. */
  lemma {:induction false} WalkGrows(commands: seq<string>, list: seq<string>, subPath: seq<string>,
                                     fill: (string, string) -> seq<string>, n: nat)
    requires n <= |list|
    requires Walk(commands, list, subPath, fill, n).Some?
    ensures commands <= Walk(commands, list, subPath, fill, n).value.0
    ensures (forall i, j :: 0 <= i < j < |commands| ==> commands[i] != commands[j])
            ==> var r := Walk(commands, list, subPath, fill, n).value.0;
                forall i, j :: 0 <= i < j < |r| ==> r[i] != r[j]
    decreases n
  {
    if n > 0 {
      WalkGrows(commands, list, subPath, fill, n - 1);
    }
  }

  /** The completion list never holds the same command twice, and only grows entry by entry. */
  lemma {:induction false} CollectDistinct(entries: seq<string>, path: string, fill: (string, string) -> seq<string>, k: nat)
    requires k <= |entries|
    requires Collect(entries, path, fill).Some?
    ensures Collect(entries[..k], path, fill).Some?
    ensures Collect(entries[..k], path, fill).value <= Collect(entries, path, fill).value
    ensures var r := Collect(entries, path, fill).value;
            forall i, j :: 0 <= i < j < |r| ==> r[i] != r[j]
    decreases |entries|
  {
    if |entries| > 0 {
      var init := entries[..|entries| - 1];
      var c := Collect(init, path, fill).value;
      if k < |entries| {
        assert init[..k] == entries[..k];
        CollectDistinct(init, path, fill, k);
      } else {
        assert entries[..k] == entries;
        CollectDistinct(init, path, fill, 0);
      }
      CollectDistinct(init, path, fill, |init|);
      var entry := entries[|entries| - 1];
      if Relevant(entry, path) {
        var list := Explode('.', entry);
        WalkGrows(c, list, Explode('.', path), fill, |list|);
      }
    } else {
      assert entries[..k] == [];
    }
  }

  /** Walking one entry keeps the commands pairwise loosely different. */
  lemma {:induction false} WalkApart(commands: seq<string>, list: seq<string>, subPath: seq<string>,
                                     fill: (string, string) -> seq<string>, n: nat)
    requires n <= |list|
    requires Walk(commands, list, subPath, fill, n).Some?
    requires LooselyDistinct(commands)
    ensures LooselyDistinct(Walk(commands, list, subPath, fill, n).value.0)
    decreases n
  {
    if n > 0 {
      WalkApart(commands, list, subPath, fill, n - 1);
      var state := Walk(commands, list, subPath, fill, n - 1).value;
      if !Skipped(list, subPath, n - 1) {
        var items := SubList(list[n - 1], fill).value;
        var added := AddMissing(state.0, Product(items, state.1));
        assert Walk(commands, list, subPath, fill, n).value.0 == added;
        AddMissingDistinct(state.0, Product(items, state.1));
        assert LooselyDistinct(added);
      }
    }
  }

  /**
   * `in_array` compares loosely, so the completion list never holds two
   * commands that PHP's `==` calls equal.
   */
  lemma {:induction false} CollectApart(entries: seq<string>, path: string, fill: (string, string) -> seq<string>)
    requires Collect(entries, path, fill).Some?
    ensures LooselyDistinct(Collect(entries, path, fill).value)
    decreases |entries|
  {
    if |entries| > 0 {
      var init := entries[..|entries| - 1];
      CollectApart(init, path, fill);
      var entry := entries[|entries| - 1];
      if Relevant(entry, path) {
        var list := Explode('.', entry);
        WalkApart(Collect(init, path, fill).value, list, Explode('.', path), fill, |list|);
      }
    }
  }

  /** A segment that is neither empty nor a `?` placeholder. */
  predicate Plain(part: string)
  {
    part != "" && part[0] != '?'
  }

  lemma {:induction false} ImplodeSnoc(sep: string, parts: seq<string>, x: string)
    requires |parts| > 0
    ensures Implode(sep, parts + [x]) == Implode(sep, parts) + sep + x
    decreases |parts|
  {
    if |parts| > 1 {
      assert (parts + [x])[1..] == parts[1..] + [x];
      ImplodeSnoc(sep, parts[1..], x);
    }
  }

  /**
   * With the empty path, walking plain segments keeps one root: the segments
   * so far joined by spaces, which is then loosely among the commands.
   */
  lemma {:induction false} WalkPlain(commands: seq<string>, list: seq<string>,
                                     fill: (string, string) -> seq<string>, n: nat)
    requires n <= |list|
    requires forall i :: 0 <= i < |list| ==> Plain(list[i])
    ensures Walk(commands, list, [""], fill, n).Some?
    ensures Walk(commands, list, [""], fill, n).value.1 == [Implode(" ", list[..n])]
    ensures n > 0 ==> LooselyIn(Implode(" ", list[..n]), Walk(commands, list, [""], fill, n).value.0)
    decreases n
  {
    if n > 0 {
      WalkPlain(commands, list, fill, n - 1);
      var state := Walk(commands, list, [""], fill, n - 1).value;
      assert !Skipped(list, [""], n - 1);
      PlainStep(state.0, list[n - 1], Implode(" ", list[..n - 1]), fill);
      ImplodePlain(list, n);
      AddMissingCovers(state.0, [Implode(" ", list[..n])]);
    }
  }

  /** A plain segment after a single root gives the single root extended by it. */
  lemma PlainStep(commands: seq<string>, sub: string, prev: string, fill: (string, string) -> seq<string>)
    requires Plain(sub)
    ensures ParseSub(commands, [prev], sub, fill) == Some((AddMissing(commands, [Join(prev, sub)]), [Join(prev, sub)]))
  {
    assert SubList(sub, fill) == Some([sub]);
    assert Row(sub, [prev]) == [Join(prev, sub)];
    assert Product([sub], [prev]) == [Join(prev, sub)];
  }

  /** Joining one more plain segment with a space is `Join` on the joined prefix. */
  lemma ImplodePlain(list: seq<string>, n: nat)
    requires 0 < n <= |list|
    requires forall i :: 0 <= i < |list| ==> Plain(list[i])
    ensures Implode(" ", list[..n]) == Join(Implode(" ", list[..n - 1]), list[n - 1])
  {
    var prev := Implode(" ", list[..n - 1]);
    var sub := list[n - 1];
    if n == 1 {
      assert list[..1] == [sub];
    } else {
      assert list[..n] == list[..n - 1] + [sub];
      ImplodeSnoc(" ", list[..n - 1], sub);
      assert list[..n - 1][0] == list[0];
      assert prev != "" by {
        ImplodePrefix(" ", list[..n - 1], 1);
        assert list[..n - 1][..1] == [list[0]];
      }
    }
  }

  /** Joining dot-free parts with dots and reading dots as spaces joins them with spaces. */
  lemma {:induction false} ReplaceImplode(parts: seq<string>)
    requires forall i :: 0 <= i < |parts| ==> '.' !in parts[i]
    ensures ReplaceChar(Implode(".", parts), '.', ' ') == Implode(" ", parts)
    decreases |parts|
  {
    if |parts| == 1 {
      assert ReplaceChar(parts[0], '.', ' ') == parts[0];
    } else if |parts| > 1 {
      ReplaceImplode(parts[1..]);
      ReplaceCharConcat(parts[0] + ".", Implode(".", parts[1..]), '.', ' ');
      ReplaceCharConcat(parts[0], ".", '.', ' ');
      assert ReplaceChar(parts[0], '.', ' ') == parts[0];
    }
  }

  /**
   * At the top level, an entry made of plain segments is offered whole,
   * dots read as spaces, or a loosely equal command is.
   */
  lemma PlainEntryOffered(entries: seq<string>, fill: (string, string) -> seq<string>, k: nat)
    requires k < |entries|
    requires forall i :: 0 <= i < |Explode('.', entries[k])| ==> Plain(Explode('.', entries[k])[i])
    requires Collect(entries, "", fill).Some?
    ensures LooselyIn(ReplaceChar(entries[k], '.', ' '), Collect(entries, "", fill).value)
  {
    var entry := entries[k];
    var list := Explode('.', entry);
    assert Explode('.', "") == [""];
    CollectDistinct(entries, "", fill, k + 1);
    CollectDistinct(entries, "", fill, k);
    var upto := entries[..k + 1];
    assert upto[..k] == entries[..k];
    assert upto[k] == entry;
    var c := Collect(entries[..k], "", fill).value;
    WalkPlain(c, list, fill, |list|);
    assert list[..|list|] == list;
    ImplodeExplode('.', entry);
    ReplaceImplode(list);
    LooselyInPrefix(ReplaceChar(entry, '.', ' '), Collect(upto, "", fill).value, Collect(entries, "", fill).value);
  }

  // ------------------------------------------------------------- the path

  /** The path a missing command proposes: its common prefix with `cmd`, without outer dots. */
  function Proposal(dotted: string, cmd: string): string
  {
    Trim(dotted[..StringTools.CommonLength(dotted, cmd, true)], ShellSession.Dot)
  }

  /** The proposal of every known command, in order. */
  function Proposals(dotted: string, commands: seq<string>): (r: seq<string>)
    ensures |r| == |commands|
    ensures forall i :: 0 <= i < |commands| ==> r[i] == Proposal(dotted, commands[i])
  {
    seq(|commands|, i requires 0 <= i < |commands| => Proposal(dotted, commands[i]))
  }

  /** The first proposal longer than everything before it, or the path. */
  function Longest(path: string, proposals: seq<string>): (r: string)
    ensures |r| >= |path|
  {
    if |proposals| == 0 then path
    else
      var p := Longest(path, proposals[..|proposals| - 1]);
      var tmp := proposals[|proposals| - 1];
      if |tmp| > |p| then tmp else p
  }

  /** The path left after a `ShellMissingCommandException`. */
  function Deepest(path: string, dotted: string, commands: seq<string>): (r: string)
    ensures |r| >= |path|
  {
    Longest(path, Proposals(dotted, commands))
  }

  /** No proposal is longer than the path a missing command leaves. */
  lemma {:induction false} LongestIsLongest(path: string, proposals: seq<string>, i: nat)
    requires i < |proposals|
    ensures |proposals[i]| <= |Longest(path, proposals)|
    decreases |proposals|
  {
    var init := proposals[..|proposals| - 1];
    if i < |init| {
      LongestIsLongest(path, init, i);
      assert init[i] == proposals[i];
    }
  }

  /** The path a missing command leaves is the old path or one of the proposals. */
  lemma {:induction false} LongestIsProposal(path: string, proposals: seq<string>)
    ensures Longest(path, proposals) == path || Longest(path, proposals) in proposals
    decreases |proposals|
  {
    if |proposals| > 0 {
      var init := proposals[..|proposals| - 1];
      LongestIsProposal(path, init);
      assert forall x :: x in init ==> x in proposals;
    }
  }

  /**
   * After a missing command the path is the old one or the proposal of some
   * known command, and no known command proposes anything longer.
   */
  lemma DeepestChoice(path: string, dotted: string, commands: seq<string>)
    ensures var r := Deepest(path, dotted, commands);
            (r == path || exists i :: 0 <= i < |commands| && r == Proposal(dotted, commands[i]))
            && forall i :: 0 <= i < |commands| ==> |Proposal(dotted, commands[i])| <= |r|
  {
    var props := Proposals(dotted, commands);
    LongestIsProposal(path, props);
    forall i | 0 <= i < |commands|
      ensures |Proposal(dotted, commands[i])| <= |Deepest(path, dotted, commands)|
    {
      LongestIsLongest(path, props, i);
    }
  }

  /** A proposal is a prefix of the dotted command with its outer dots trimmed. */
  lemma ProposalFromCommand(dotted: string, cmd: string)
    ensures var n := StringTools.CommonLength(dotted, cmd, true);
            Proposal(dotted, cmd) == Trim(dotted[..n], ShellSession.Dot) && dotted[..n] <= cmd
  {
    StringTools.CommonLengthPrefix(dotted, cmd);
  }

  /** The command sent to the client: the path, dots read as spaces, then the answer. */
  function CommandOf(path: string, current: string): string
  {
    if path == "" then current else ReplaceChar(path, '.', ' ') + " " + current
  }

  /** For space-free paths and answers, the dotted form of the command is the path extended by the answer. */
  lemma CommandDotted(path: string, current: string)
    requires ' ' !in path && ' ' !in current
    ensures ReplaceChar(CommandOf(path, current), ' ', '.') == if path == "" then current else path + "." + current
  {
    assert ReplaceChar(current, ' ', '.') == current;
    if path != "" {
      var rp := ReplaceChar(path, '.', ' ');
      ReplaceCharConcat(rp + " ", current, ' ', '.');
      ReplaceCharConcat(rp, " ", ' ', '.');
      assert ReplaceChar(rp, ' ', '.') == path;
    }
  }

  /** `$more`: " - message" for a message PHP reads as true. */
  function More(message: string): string
  {
    if Truthy(message) then " - " + message else ""
  }

  /** The line written for a client exception other than a missing command. */
  function Report(result: ClientResult, command: string, current: string): seq<string>
  {
    match result
    case MissingItem(m) => ["<comment>" + command + "</comment>: missing item(s)" + More(m)]
    case UnknownItem(m) => ["<comment>" + current + "</comment>: unknown item" + More(m)]
    case UnknownCommand(m) => ["<comment>" + command + "</comment>: command not found" + More(m)]
    case _ => []
  }

  // ------------------------------------------------------- loop steps

  lemma ProductStep(list: seq<string>, root: seq<string>, a: nat)
    requires a < |list|
    ensures Product(list[..a + 1], root) == Product(list[..a], root) + Row(list[a], root)
  {
    assert list[..a + 1][..a] == list[..a];
  }

  lemma RowStep(sub: string, root: seq<string>, b: nat)
    requires b < |root|
    ensures Row(sub, root[..b + 1]) == Row(sub, root[..b]) + [Join(root[b], sub)]
  {
    assert root[..b + 1][..b] == root[..b];
  }

  lemma AddMissingSnoc(commands: seq<string>, xs: seq<string>, x: string)
    ensures AddMissing(commands, xs + [x])
         == if LooselyIn(x, AddMissing(commands, xs)) then AddMissing(commands, xs) else AddMissing(commands, xs) + [x]
  {
    assert (xs + [x])[..|xs|] == xs;
  }

  lemma WalkStep(commands: seq<string>, list: seq<string>, subPath: seq<string>,
                 fill: (string, string) -> seq<string>, i: nat)
    requires i < |list| && Walk(commands, list, subPath, fill, i).Some?
    ensures var state := Walk(commands, list, subPath, fill, i).value;
            Walk(commands, list, subPath, fill, i + 1)
              == if Skipped(list, subPath, i) then Some(state) else ParseSub(state.0, state.1, list[i], fill)
  {
  }

  lemma CollectStep(entries: seq<string>, path: string, fill: (string, string) -> seq<string>, k: nat)
    requires k < |entries| && Collect(entries[..k], path, fill).Some?
    ensures var c := Collect(entries[..k], path, fill).value;
            var list := Explode('.', entries[k]);
            Collect(entries[..k + 1], path, fill)
              == if !Relevant(entries[k], path) then Some(c)
                 else match Walk(c, list, Explode('.', path), fill, |list|)
                      case None => None
                      case Some(state) => Some(state.0)
  {
    assert entries[..k + 1][..k] == entries[..k];
  }

  lemma LongestStep(path: string, proposals: seq<string>, i: nat)
    requires i < |proposals|
    ensures var p := Longest(path, proposals[..i]);
            Longest(path, proposals[..i + 1]) == if |proposals[i]| > |p| then proposals[i] else p
  {
    assert proposals[..i + 1][..i] == proposals[..i];
  }

  class InteractiveShell {
    var commands: seq<string>

    constructor ()
      ensures commands == []
    {
      commands := [];
    }

    /** `setCommands($commands)`: the list as given, then 'quit' and 'help'. */
    method SetCommands(commands: seq<string>)
      modifies this
      ensures this.commands == commands + ["quit", "help"]
    {
      this.commands := commands + ["quit", "help"];
    }

    /** `parseSubCommand(&$commands, &$root, $sub)`. */
    method ParseSubCommand(commands: seq<string>, root: seq<string>, sub: string,
                           fill: (string, string) -> seq<string>) returns (r: Option<(seq<string>, seq<string>)>)
      ensures r == ParseSub(commands, root, sub, fill)
    {
      var list: seq<string>;
      if |sub| > 0 && sub[0] == '?' {
        var parts := Explode('_', sub[1..]);
        if |parts| < 2 {
          return None;
        }
        list := fill(parts[0], parts[1]);
      } else {
        list := [sub];
      }
      assert SubList(sub, fill) == Some(list);
      var added, newRoot := AddProduct(commands, list, root);
      r := Some((added, newRoot));
    }

    /** The outer loop of `parseSubCommand`: each listed value after every root. */
    method AddProduct(commands: seq<string>, list: seq<string>, root: seq<string>)
      returns (added: seq<string>, newRoot: seq<string>)
      ensures newRoot == Product(list, root)
      ensures added == AddMissing(commands, newRoot)
    {
      added, newRoot := commands, [];
      var a := 0;
      while a < |list|
        invariant 0 <= a <= |list|
        invariant newRoot == Product(list[..a], root)
        invariant added == AddMissing(commands, newRoot)
      {
        ProductStep(list, root, a);
        added, newRoot := AddRow(commands, added, newRoot, list[a], root);
        a := a + 1;
      }
      assert list[..a] == list;
    }

    /** The inner loop of `parseSubCommand`: `sub` after each root in turn. */
    method AddRow(commands: seq<string>, added: seq<string>, newRoot: seq<string>, sub: string, root: seq<string>)
      returns (added': seq<string>, newRoot': seq<string>)
      requires added == AddMissing(commands, newRoot)
      ensures newRoot' == newRoot + Row(sub, root)
      ensures added' == AddMissing(commands, newRoot')
    {
      added', newRoot' := added, newRoot;
      var b := 0;
      while b < |root|
        invariant 0 <= b <= |root|
        invariant newRoot' == newRoot + Row(sub, root[..b])
        invariant added' == AddMissing(commands, newRoot')
      {
        var command := Join(root[b], sub);
        RowStep(sub, root, b);
        AppendAssoc(newRoot, Row(sub, root[..b]), [command]);
        AddMissingSnoc(commands, newRoot', command);
        if !LooselyIn(command, added') {
          added' := added' + [command];
        }
        newRoot' := newRoot' + [command];
        b := b + 1;
      }
      assert root[..b] == root;
    }

    /** The loop over one entry's segments in `availableCommands`. */
    method WalkEntry(found: seq<string>, list: seq<string>, subPath: seq<string>,
                     fill: (string, string) -> seq<string>) returns (r: Option<(seq<string>, seq<string>)>)
      ensures r == Walk(found, list, subPath, fill, |list|)
    {
      var commands := found;
      var root: seq<string> := [""];
      var i := 0;
      while i < |list|
        invariant 0 <= i <= |list|
        invariant Walk(found, list, subPath, fill, i) == Some((commands, root))
      {
        WalkStep(found, list, subPath, fill, i);
        if i < |subPath| && list[i] == subPath[i] {
          i := i + 1;
          continue;
        }
        var res := ParseSubCommand(commands, root, list[i], fill);
        if res.None? {
          WalkStuck(found, list, subPath, fill, i + 1, |list|);
          return None;
        }
        commands, root := res.value.0, res.value.1;
        i := i + 1;
      }
      r := Some((commands, root));
    }

    /** `availableCommands($path)`. */
    method AvailableCommands(path: string, fill: (string, string) -> seq<string>) returns (r: Option<seq<string>>)
      ensures r == Collect(commands, path, fill)
    {
      var found: seq<string> := [];
      var k := 0;
      while k < |commands|
        invariant 0 <= k <= |commands|
        invariant Collect(commands[..k], path, fill) == Some(found)
      {
        var entry := commands[k];
        CollectStep(commands, path, fill, k);
        if path != "" && !Contains(path, entry) {
          k := k + 1;
          continue;
        }
        var res := WalkEntry(found, Explode('.', entry), Explode('.', path), fill);
        if res.None? {
          CollectStuck(commands, path, fill, k + 1);
          return None;
        }
        found := res.value.0;
        k := k + 1;
      }
      assert commands[..k] == commands;
      r := Some(found);
    }

    /** The path after a missing command: the loop over every known command. */
    method MissingCommandPath(path: string, command: string) returns (r: string)
      ensures r == Deepest(path, ReplaceChar(command, ' ', '.'), commands)
    {
      var dotted := ReplaceChar(command, ' ', '.');
      ghost var props := Proposals(dotted, commands);
      r := path;
      var i := 0;
      while i < |commands|
        invariant 0 <= i <= |commands|
        invariant r == Longest(path, props[..i])
      {
        LongestStep(path, props, i);
        var common := StringTools.CommonPart(dotted, commands[i], true);
        var tmp := Trim(common, ShellSession.Dot);
        assert tmp == props[i];
        if |tmp| > |r| {
          r := tmp;
        }
        i := i + 1;
      }
      assert props[..i] == props;
    }

    /**
     * One pass of `run($prompt)` from `path`, with the answer read and the
     * client's `manageCommand` outcome for the command it is given.
     */
    method Step(path: string, answer: string, manage: string -> ClientResult,
                fill: (string, string) -> seq<string>) returns (o: StepOutcome)
      ensures Collect(commands, path, fill).None? ==> o == TypeFailure
      ensures Collect(commands, path, fill).Some? ==>
                var current := Lower(answer);
                var command := CommandOf(path, current);
                o == (if IsQuit(current) then Exit
                      else if IsHelp(current) then Help(TopLevel(Collect(commands, path, fill).value))
                      else if current == "" then Next("", [])
                      else if manage(command) == MissingCommand
                      then Next(Deepest(path, ReplaceChar(command, ' ', '.'), commands), [])
                      else Next(path, Report(manage(command), command, current)))
      ensures o.Next? && o.path != "" ==> |o.path| >= |path|
    {
      var available := AvailableCommands(path, fill);
      if available.None? {
        return TypeFailure;
      }
      var current := Lower(answer);
      if IsQuit(current) {
        return Exit;
      }
      if IsHelp(current) {
        var lines := ListCurrentAvailableCommands(available.value);
        return Help(lines);
      }
      if current == "" {
        return Next("", []);
      }
      var command := if path == "" then current else ReplaceChar(path, '.', ' ') + " " + current;
      var result := manage(command);
      if result == MissingCommand {
        var next := MissingCommandPath(path, command);
        return Next(next, []);
      }
      return Next(path, Report(result, command, current));
    }

    /** `listCurrentAvailableCommands($commands)`: the lines written. */
    method ListCurrentAvailableCommands(commands: seq<string>) returns (lines: seq<string>)
      ensures lines == TopLevel(commands)
    {
      lines := [];
      var i := 0;
      while i < |commands|
        invariant 0 <= i <= |commands|
        invariant lines == TopLevel(commands[..i])
      {
        TopLevelStep(commands, i);
        if ' ' !in commands[i] {
          lines := lines + [commands[i]];
        }
        i := i + 1;
      }
      assert commands[..i] == commands;
    }
  }
}
