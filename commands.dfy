/**
 * The wire form of outbound commands (`getNextCommandPrefix`,
 * `SendRadioCommand`): `"C" + decimal(seq) + "|" + command + "\r"`.
 */
module Commands {
  import opened GoStrings
  import opened Reply

  /** The prefix `getNextCommandPrefix` builds for sequence number `n`. */
  function CommandPrefix(n: int): string
  {
    "C" + Itoa(n) + "|"
  }

  /** The frame written for command `cmd` with sequence number `n`. */
  function CommandFrame(n: int, cmd: string): string
  {
    CommandPrefix(n) + cmd + "\r"
  }

  /**
   * A frame can be read back: split on its '|', the prefix is 'C' followed by
   * the decimal sequence number and the rest is the command and its '\r'.
   */
  lemma CommandFrameDecodes(n: int, cmd: string)
    requires '|' !in cmd
    ensures var (prefix, rest) := ParseReplyStringPrefix(CommandFrame(n, cmd));
      && |prefix| > 0 && prefix[0] == 'C' && Atoi(prefix[1..]) == n
      && rest == cmd + "\r"
  {
    var digits := Itoa(n);
    ItoaCharacters(n);
    ItoaAtoi(n);
    assert '|' !in "C" + digits;
    assert '|' !in cmd + "\r";
    assert CommandFrame(n, cmd) == ("C" + digits) + "|" + (cmd + "\r");
    ParseReplyRoundTrip("C" + digits, cmd + "\r");
    assert ("C" + digits)[1..] == digits;
  }

  /** The frames of the commands `cmds` issued in order from a counter starting at zero. */
  function Frames(cmds: seq<string>): (frames: seq<string>)
    ensures |frames| == |cmds|
    ensures forall i :: 0 <= i < |cmds| ==> frames[i] == CommandFrame(i + 1, cmds[i])
    decreases |cmds|
  {
    if |cmds| == 0 then []
    else Frames(cmds[..|cmds| - 1]) + [CommandFrame(|cmds|, cmds[|cmds| - 1])]
  }

  lemma FramesAppend(cmds: seq<string>, cmd: string)
    ensures Frames(cmds + [cmd]) == Frames(cmds) + [CommandFrame(|cmds| + 1, cmd)]
  {
    var all := cmds + [cmd];
    assert all[..|all| - 1] == cmds;
    assert all[|all| - 1] == cmd;
  }
}
