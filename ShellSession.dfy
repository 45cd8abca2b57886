/**
 * `NC22InteractiveShellSession`: the state of an interactive console
 * session.  The current path is a dot-separated command prefix that grows
 * with `addPath` and shrinks with `goParent`.
 */
module ShellSession {
  import opened PhpStrings
  import DataStore

  const Dot: set<char> := {'.'}

  /** `getPath($command)` as a function of the stored path. */
  function PathWith(path: string, command: string): string
  {
    if command == "" then path else Trim(path + "." + command, Dot)
  }

  /** The path `goParent` leaves: the last '.'-segment dropped. */
  function ParentOf(path: string): string
  {
    var parts := Explode('.', path);
    Implode(".", parts[..|parts| - 1])
  }

  /** A path with no dot at either end, as `setPath` and `addPath` leave it. */
  predicate Trimmed(path: string)
  {
    |path| == 0 || (path[0] != '.' && path[|path| - 1] != '.')
  }

  /** `array_unique` on a list of strings: the first occurrence of each value, in order. */
  function Dedup(xs: seq<string>): (r: seq<string>)
    ensures forall x :: x in r <==> x in xs
    ensures forall i, j :: 0 <= i < j < |r| ==> r[i] != r[j]
  {
    if |xs| == 0 then []
    else
      var d := Dedup(xs[..|xs| - 1]);
      var last := xs[|xs| - 1];
      assert forall x :: x in xs <==> x in xs[..|xs| - 1] || x == last;
      if last in d then d else d + [last]
  }

  /** A list without repeats is its own `array_unique`. */
  lemma {:induction false} DedupDistinct(xs: seq<string>)
    requires forall i, j :: 0 <= i < j < |xs| ==> xs[i] != xs[j]
    ensures Dedup(xs) == xs
  {
    if |xs| > 0 {
      var init := xs[..|xs| - 1];
      DedupDistinct(init);
      assert xs[|xs| - 1] !in init;
      assert init + [xs[|xs| - 1]] == xs;
    }
  }

  /** Some command starts with `prefix` (strpos(...) === 0). */
  predicate SomeStartsWith(commands: seq<string>, prefix: string)
  {
    exists i :: 0 <= i < |commands| && prefix <= commands[i]
  }

  /** A trimmed path is its own trim. */
  lemma TrimmedIsTrim(path: string)
    requires Trimmed(path)
    ensures Trim(path, Dot) == path
  {
    if |path| > 0 {
      assert TrimLeft(path, Dot) == path;
    }
  }

  /** A trimmed path followed by one dot trims back to the path. */
  lemma TrimTrailingDot(path: string)
    requires Trimmed(path)
    ensures Trim(path + ".", Dot) == path
  {
    TrimSnoc(path, '.', Dot);
    TrimmedIsTrim(path);
  }

  /** On a trimmed path, `addPath($c)` leaves exactly what `getPath($c)` returned before. */
  lemma AddPathIsPathWith(path: string, command: string)
    requires Trimmed(path)
    ensures Trim(path + "." + command, Dot) == PathWith(path, command)
  {
    if command == "" {
      assert path + "." + command == path + ".";
      TrimTrailingDot(path);
    }
  }

  /** `addPath($c)` then `goParent()` gives back a trimmed path, for a non-empty dot-free `$c`. */
  lemma AddPathThenParent(path: string, command: string)
    requires Trimmed(path)
    requires command != "" && '.' !in command
    ensures ParentOf(Trim(path + "." + command, Dot)) == path
  {
    if |path| == 0 {
      assert path + "." + command == "." + command;
      ParentAfterRoot(command);
    } else {
      ParentAfterSegment(path, command);
    }
  }

  lemma ParentAfterRoot(command: string)
    requires command != "" && '.' !in command
    ensures ParentOf(Trim("." + command, Dot)) == ""
  {
    var s := "." + command;
    assert Trim(s, Dot) == command by {
      assert TrimLeft(s, Dot) == command by {
        assert s[1..] == command;
        assert TrimLeft(command, Dot) == command;
      }
      TrimNothing(command, Dot);
    }
    assert Explode('.', command) == [command];
    assert Implode(".", []) == "";
  }

  lemma ParentAfterSegment(path: string, command: string)
    requires |path| > 0 && Trimmed(path)
    requires command != "" && '.' !in command
    ensures ParentOf(Trim(path + "." + command, Dot)) == path
  {
    var s := path + "." + command;
    assert Trim(s, Dot) == s by {
      assert s == path + ['.'] + command;
      assert s[0] == path[0] && s[|s| - 1] == command[|command| - 1];
      TrimmedIsTrim(s);
    }
    var e := Explode('.', path);
    assert Explode('.', s) == e + [command] by {
      assert s == path + ['.'] + command;
      ExplodeJoin('.', path, command);
      assert Explode('.', command) == [command];
    }
    assert (e + [command])[..|e|] == e;
    ImplodeExplode('.', path);
  }

  /** The parent of a path is a prefix of it. */
  lemma ParentIsPrefix(path: string)
    ensures ParentOf(path) <= path
  {
    var parts := Explode('.', path);
    ImplodePrefix(".", parts, |parts| - 1);
    ImplodeExplode('.', path);
  }

  /** `goParent()` on the empty path leaves it empty. */
  lemma ParentOfEmpty()
    ensures ParentOf("") == ""
  {
    assert Explode('.', "") == [""];
  }

  class NC22InteractiveShellSession {
    var prompt: string
    var path: string
    var availableCommands: seq<string>
    var commands: seq<string>
    var globalCommands: seq<string>
    var data: DataStore.SimpleDataStore

    /** Every field except the path. */
    function Others(): (string, seq<string>, seq<string>, seq<string>, DataStore.SimpleDataStore)
      reads this
    {
      (prompt, availableCommands, commands, globalCommands, data)
    }

    /** A new session: prompt '%PATH%>', empty path and lists, an empty data store. */
    constructor ()
      ensures prompt == "%PATH%>" && path == ""
      ensures availableCommands == [] && commands == [] && globalCommands == []
      ensures fresh(data) && data.data == []
    {
      prompt := "%PATH%>";
      path := "";
      availableCommands := [];
      commands := [];
      globalCommands := [];
      data := new DataStore.SimpleDataStore([]);
    }

    method SetPrompt(prompt: string)
      modifies this`prompt
      ensures this.prompt == prompt
    {
      this.prompt := prompt;
    }

    /** `setPath($path)`: every leading and trailing '.' is stripped. */
    method SetPath(path: string)
      modifies this`path
      ensures this.path == Trim(path, Dot) && Trimmed(this.path)
    {
      this.path := Trim(path, Dot);
    }

    /** `getPath($command)`. */
    method GetPath(command: string) returns (r: string)
      ensures r == PathWith(path, command)
      ensures command == "" ==> r == path
      ensures command != "" ==> Trimmed(r)
    {
      if command == "" {
        return path;
      }
      r := Trim(path + "." + command, Dot);
    }

    /** `addPath($command)`. */
    method AddPath(command: string)
      modifies this`path
      ensures path == Trim(old(path) + "." + command, Dot) && Trimmed(path)
      ensures Trimmed(old(path)) ==> path == PathWith(old(path), command)
    {
      if Trimmed(path) {
        AddPathIsPathWith(path, command);
      }
      path := Trim(path + "." + command, Dot);
    }

    /** `goParent()`. */
    method GoParent()
      modifies this`path
      ensures path == ParentOf(old(path))
    {
      var parts := Explode('.', path);
      if |parts| > 0 {
        parts := parts[..|parts| - 1];
        path := Implode(".", parts);
      }
    }

    method SetCommands(commands: seq<string>)
      modifies this`commands
      ensures this.commands == commands
    {
      this.commands := commands;
    }

    method SetGlobalCommands(commands: seq<string>)
      modifies this`globalCommands
      ensures globalCommands == commands
    {
      globalCommands := commands;
    }

    /** `setAvailableCommands($list)`: duplicates are dropped. */
    method SetAvailableCommands(available: seq<string>)
      modifies this`availableCommands
      ensures availableCommands == Dedup(available)
    {
      availableCommands := Dedup(available);
    }

    /** `getAvailableCommands()`: the available commands, then the global ones. */
    method GetAvailableCommands() returns (r: seq<string>)
      ensures r == availableCommands + globalCommands
    {
      r := availableCommands + globalCommands;
    }

    /** `isCommandAvailable($commands, $c)`: some command starts with `getPath($c)`. */
    method IsCommandAvailable(commands: seq<string>, command: string) returns (r: bool)
      ensures r <==> SomeStartsWith(commands, PathWith(path, command))
    {
      var target := GetPath(command);
      var i := 0;
      while i < |commands|
        invariant 0 <= i <= |commands|
        invariant forall j :: 0 <= j < i ==> !(target <= commands[j])
      {
        if target <= commands[i] {
          return true;
        }
        i := i + 1;
      }
      return false;
    }
  }
}
