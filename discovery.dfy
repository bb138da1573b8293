// Screen discovery: `get_connected_screens` in src/dualmon/cli.py turns the text
// printed by `xrandr` into the ordered list of connected output names.
module Discovery {
  import opened Strings

  /** The marker a line must contain to describe a connected output. */
  const ConnectedMarker := " connected"

  /** `' connected' in line`. */
  predicate IsConnected(line: string)
  {
    Contains(line, ConnectedMarker)
  }

  /** A line with the marker has at least one word, so `line.split()[0]` exists. */
  lemma ConnectedLineHasWord(line: string)
    requires IsConnected(line)
    ensures Words(line) != []
  {
    ContainsChar(line, ConnectedMarker, 1);
    var i :| 0 <= i < |line| && line[i] == ConnectedMarker[1];
    WordsNonEmpty(line, i);
  }

  /** `line.split()[0]`: the output name at the head of a connected line. */
  function ScreenName(line: string): (name: string)
    requires IsConnected(line)
    ensures IsToken(name)
  {
    ConnectedLineHasWord(line);
    Words(line)[0]
  }

  /**
   * What `get_connected_screens` returns for the given lines: for each line that
   * contains the marker, its first word, in the order of the lines.
   */
  function ConnectedScreens(lines: seq<string>): (screens: seq<string>)
    ensures |screens| <= |lines|
    ensures forall w :: w in screens ==> IsToken(w)
  {
    if lines == [] then []
    else
      var last := lines[|lines| - 1];
      ConnectedScreens(lines[..|lines| - 1]) + (if IsConnected(last) then [ScreenName(last)] else [])
  }

  /** The positions of the lines that contain the marker, in increasing order. */
  function ConnectedIndices(lines: seq<string>): (idx: seq<nat>)
    ensures forall k :: 0 <= k < |idx| ==> idx[k] < |lines| && IsConnected(lines[idx[k]])
    ensures forall k, m :: 0 <= k < m < |idx| ==> idx[k] < idx[m]
    ensures forall i :: 0 <= i < |lines| && IsConnected(lines[i]) ==> i in idx
  {
    if lines == [] then []
    else
      var n := |lines| - 1;
      var earlier := ConnectedIndices(lines[..n]);
      assert forall i :: 0 <= i < n ==> lines[..n][i] == lines[i];
      earlier + (if IsConnected(lines[n]) then [n] else [])
  }

  /**
   * The k-th discovered screen is the name on the k-th connected line, and there is
   * one screen per connected line: nothing else is kept, nothing is reordered.
   */
  lemma {:induction false} ConnectedScreensAreNamesOfConnectedLines(lines: seq<string>)
    ensures |ConnectedScreens(lines)| == |ConnectedIndices(lines)|
    ensures forall k :: 0 <= k < |ConnectedIndices(lines)| ==>
              ConnectedScreens(lines)[k] == ScreenName(lines[ConnectedIndices(lines)[k]])
  {
    if lines != [] {
      var n := |lines| - 1;
      ConnectedScreensAreNamesOfConnectedLines(lines[..n]);
      var idx := ConnectedIndices(lines[..n]);
      forall k | 0 <= k < |idx|
        ensures lines[..n][idx[k]] == lines[idx[k]]
      {
      }
    }
  }

  /**
   * The loop of `get_connected_screens`: splits the output into lines and appends the
   * first word of every line that contains " connected".
   */
  method GetConnectedScreens(output: string) returns (screens: seq<string>)
    ensures screens == ConnectedScreens(SplitLines(output))
  {
    var lines := SplitLines(output);
    screens := [];
    for i := 0 to |lines|
      invariant screens == ConnectedScreens(lines[..i])
    {
      var line := lines[i];
      ConnectedScreensStep(lines, i);
      if Contains(line, ConnectedMarker) {
        ConnectedLineHasWord(line);
        screens := screens + [Words(line)[0]];
      }
    }
    assert lines[..|lines|] == lines;
  }

  /** One more line adds its name when it is connected, and nothing otherwise. */
  lemma ConnectedScreensStep(lines: seq<string>, i: nat)
    requires i < |lines|
    ensures ConnectedScreens(lines[..i + 1])
         == ConnectedScreens(lines[..i]) + if IsConnected(lines[i]) then [ScreenName(lines[i])] else []
  {
    assert lines[..i + 1][..i] == lines[..i];
  }

  // ---------------------------------------------------------------------------
  // The lines xrandr prints

  /**
   * One line of `xrandr` output: the header of an output ("<name> connected ..." or
   * "<name> disconnected ...") or any other line (screen summary, mode lines).
   */
  datatype ReportLine =
    | Output(name: string, connected: bool, tail: string)
    | Detail(text: string)

  function LineText(l: ReportLine): string
  {
    match l
    case Output(name, connected, tail) =>
      name + (if connected then " connected" else " disconnected") + tail
    case Detail(text) => text
  }

  /**
   * The shape xrandr gives its lines: output names are single words, no line holds
   * a line break, and only the header of a connected output mentions " connected".
   */
  predicate WellFormed(l: ReportLine)
  {
    match l
    case Output(name, connected, tail) =>
      IsToken(name) && NoLineBreak(tail) && (!connected ==> !Contains(tail, ConnectedMarker))
    case Detail(text) => NoLineBreak(text) && !Contains(text, ConnectedMarker)
  }

  function LineTexts(ls: seq<ReportLine>): (texts: seq<string>)
    ensures |texts| == |ls|
    ensures forall k :: 0 <= k < |ls| ==> texts[k] == LineText(ls[k])
  {
    if ls == [] then [] else [LineText(ls[0])] + LineTexts(ls[1..])
  }

  /** The names of the connected outputs among `ls`, in order. */
  function ConnectedNames(ls: seq<ReportLine>): seq<string>
  {
    if ls == [] then []
    else
      var last := ls[|ls| - 1];
      ConnectedNames(ls[..|ls| - 1]) + (if last.Output? && last.connected then [last.name] else [])
  }

  /** A connected header is kept, and its name is the output's name. */
  lemma ConnectedHeaderGivesName(name: string, tail: string)
    requires IsToken(name)
    ensures IsConnected(name + " connected" + tail)
    ensures ScreenName(name + " connected" + tail) == name
  {
    ContainsInfix(name, ConnectedMarker, tail);
    assert name + " connected" + tail == name + ConnectedMarker + tail;
    assert name + " connected" + tail == name + (" connected" + tail);
    WordsOfTokenThen(name, " connected" + tail);
  }

  /** A disconnected header is skipped: the space before "connected" is missing. */
  lemma DisconnectedHeaderIsSkipped(name: string, tail: string)
    requires IsToken(name)
    requires !Contains(tail, ConnectedMarker)
    ensures !IsConnected(name + " disconnected" + tail)
  {
    if IsConnected(name + " disconnected" + tail) {
      assert name + " disconnected" + tail == name + (" disconnected" + tail);
      ContainsSkip(name, " disconnected" + tail, ConnectedMarker);
      assert !(ConnectedMarker <= " disconnected" + tail) by {
        assert (" disconnected" + tail)[1] == 'd';
      }
      assert (" disconnected" + tail)[1..] == "disconnected" + tail;
      ContainsSkip("disconnected", tail, ConnectedMarker);
      assert false;
    }
  }

  lemma WellFormedLineText(l: ReportLine)
    requires WellFormed(l)
    ensures NoLineBreak(LineText(l))
    ensures IsConnected(LineText(l)) <==> l.Output? && l.connected
    ensures l.Output? && l.connected ==> ScreenName(LineText(l)) == l.name
  {
    match l
    case Output(name, connected, tail) =>
      var mid := if connected then " connected" else " disconnected";
      assert LineText(l) == name + mid + tail;
      assert NoLineBreak(name + mid + tail) by {
        TokenHasNoLineBreak(name);
        assert NoLineBreak(mid);
        NoLineBreakAppend(name, mid);
        NoLineBreakAppend(name + mid, tail);
      }
      if connected {
        ConnectedHeaderGivesName(name, tail);
      } else {
        DisconnectedHeaderIsSkipped(name, tail);
      }
    case Detail(text) =>
  }

  /**
   * Discovery over a whole report: however connected and disconnected outputs and
   * other lines are interleaved, the result is exactly the names of the connected
   * outputs, in the order xrandr listed them.
   */
  lemma {:induction false} DiscoversConnectedOutputs(ls: seq<ReportLine>)
    requires forall l :: l in ls ==> WellFormed(l)
    ensures ConnectedScreens(SplitLines(Terminated(LineTexts(ls)))) == ConnectedNames(ls)
  {
    forall t | t in LineTexts(ls) ensures NoLineBreak(t) {
      var k :| 0 <= k < |ls| && LineTexts(ls)[k] == t;
      WellFormedLineText(ls[k]);
    }
    SplitLinesOfTerminated(LineTexts(ls));
    ConnectedScreensOfLineTexts(ls);
  }

  lemma {:induction false} ConnectedScreensOfLineTexts(ls: seq<ReportLine>)
    requires forall l :: l in ls ==> WellFormed(l)
    ensures ConnectedScreens(LineTexts(ls)) == ConnectedNames(ls)
  {
    if ls != [] {
      var n := |ls| - 1;
      assert LineTexts(ls)[..n] == LineTexts(ls[..n]);
      assert forall l :: l in ls[..n] ==> l in ls;
      ConnectedScreensOfLineTexts(ls[..n]);
      WellFormedLineText(ls[n]);
    }
  }
}
