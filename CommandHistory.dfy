/**
 * CommandHistory: an undo stack with a size bound. Executing a command runs it and pushes it; once
 * the stack holds more than `maxHistory` commands it is trimmed. The trim as written keeps the
 * newest Count - maxHistory commands, so an overflow by one leaves only the latest command.
 */
module CommandHistory {
  import Lists

  /** A command, by identity. */
  type Command = nat

  datatype CommandCall = Executed(command: Command) | Undone(command: Command)

  /** What the trim leaves of an overflowing stack (oldest first): everything above the bottom `maxHistory`. */
  function TrimmedAsWritten(s: seq<Command>, maxHistory: nat): (r: seq<Command>)
    requires |s| > maxHistory
    ensures |r| == |s| - maxHistory && r == s[|s| - |r|..]
  {
    s[maxHistory..]
  }

  /** The evidently intended trim: the newest `maxHistory` commands, in order. */
  function KeepNewest(s: seq<Command>, maxHistory: nat): (r: seq<Command>)
    ensures |r| == if |s| <= maxHistory then |s| else maxHistory
    ensures r == s[|s| - |r|..]
  {
    if |s| <= maxHistory then s else s[|s| - maxHistory..]
  }

  /** As written, the first overflow collapses a full history to the single latest command. */
  lemma TrimCollapsesFullHistory(s: seq<Command>, c: Command, maxHistory: nat)
    requires |s| == maxHistory
    ensures TrimmedAsWritten(s + [c], maxHistory) == [c]
    ensures |KeepNewest(s + [c], maxHistory)| == maxHistory
  {
  }

  /** A concrete case: with the default bound of 20, the 21st command leaves a history of one. */
  lemma TwentyFirstCommandCollapses()
    ensures |TrimmedAsWritten(seq(21, k => k), 20)| == 1
    ensures |KeepNewest(seq(21, k => k), 20)| == 20
  {
  }

  /** As written, a bound of 0 keeps everything: the trim moves all commands out and back. */
  lemma ZeroBoundKeepsAll(s: seq<Command>)
    requires |s| > 0
    ensures TrimmedAsWritten(s, 0) == s
  {
  }

  class CommandHistory {
    const maxHistory: int
    /** The undo stack, oldest first; the top is the last element. */
    var stack: seq<Command>
    /** Every Execute and Undo made on a command, oldest first. */
    var calls: seq<CommandCall>

    /** The source's default bound is 20. */
    constructor (maxHistory: int)
      ensures this.maxHistory == maxHistory && stack == [] && calls == []
    {
      this.maxHistory := maxHistory;
      stack := [];
      calls := [];
    }

    function Count(): nat
      reads this
    {
      |stack|
    }

    function CanUndo(): (r: bool)
      reads this
      ensures r <==> Count() > 0
    {
      |stack| > 0
    }

    /** Runs the command, pushes it, and trims when the bound is exceeded. A negative bound would pop an empty stack. */
    method Execute(c: Command)
      requires maxHistory >= 0
      modifies this
      ensures calls == old(calls) + [Executed(c)]
      ensures |old(stack)| + 1 <= maxHistory ==> stack == old(stack) + [c]
      ensures |old(stack)| + 1 > maxHistory ==> stack == TrimmedAsWritten(old(stack) + [c], maxHistory)
      ensures |stack| >= 1 && stack[|stack| - 1] == c
      ensures maxHistory >= 1 && |old(stack)| <= maxHistory ==> |stack| <= maxHistory
    {
      calls := calls + [Executed(c)];
      stack := stack + [c];
      if |stack| > maxHistory {
        TrimOldest();
      }
    }

    /** Pops the newest command and undoes it; nothing happens on an empty history. */
    method Undo()
      modifies this
      ensures old(stack) == [] ==> stack == [] && calls == old(calls)
      ensures old(stack) != [] ==> stack == old(stack)[..|old(stack)| - 1]
      ensures old(stack) != [] ==> calls == old(calls) + [Undone(old(stack)[|old(stack)| - 1])]
    {
      if |stack| > 0 {
        var command := stack[|stack| - 1];
        stack := stack[..|stack| - 1];
        calls := calls + [Undone(command)];
      }
    }

    /** Forgets the history without undoing anything. */
    method Clear()
      modifies this`stack
      ensures stack == []
    {
      stack := [];
    }

    /** Moves the commands above the bottom `maxHistory` to a temporary stack, clears, and moves them back. */
    method TrimOldest()
      requires 0 <= maxHistory < |stack|
      modifies this`stack
      ensures stack == TrimmedAsWritten(old(stack), maxHistory)
    {
      var temp := PopAbove();
      stack := [];
      PushBack(temp);
      Lists.ReverseReverse(old(stack)[maxHistory..]);
    }

    /** The first loop of the trim: pops every command above the bottom `maxHistory` onto `temp`. */
    method PopAbove() returns (temp: seq<Command>)
      requires 0 <= maxHistory <= |stack|
      modifies this`stack
      ensures stack == old(stack)[..maxHistory]
      ensures temp == Lists.Reverse(old(stack)[maxHistory..])
    {
      temp := [];
      while |stack| > maxHistory
        invariant maxHistory <= |stack| <= |old(stack)|
        invariant stack == old(stack)[..|stack|]
        invariant temp == Lists.Reverse(old(stack)[|stack|..])
      {
        assert old(stack)[|stack| - 1..][1..] == old(stack)[|stack|..];
        temp := temp + [stack[|stack| - 1]];
        stack := stack[..|stack| - 1];
      }
    }

    /** The second loop of the trim: pops `temp` back onto the stack, so the commands regain their order. */
    method PushBack(temp: seq<Command>)
      modifies this`stack
      ensures stack == old(stack) + Lists.Reverse(temp)
    {
      var rest := temp;
      while |rest| > 0
        invariant stack + Lists.Reverse(rest) == old(stack) + Lists.Reverse(temp)
      {
        var top := rest[|rest| - 1];
        Lists.ReverseSnoc(rest[..|rest| - 1], top);
        assert rest == rest[..|rest| - 1] + [top];
        stack := stack + [top];
        rest := rest[..|rest| - 1];
      }
    }
  }
}
