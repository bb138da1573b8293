// The pipeline of `main` in src/dualmon/cli.py, without its process calls: the text
// `xrandr` printed is parsed into screens, and the command is built from them.
module App {
  import opened Strings
  import Discovery
  import opened Layout

  /**
   * `make_cmd(get_connected_screens(output), args)`: the discovered names are single
   * words, which is all `make_cmd` needs of its screen list.
   */
  method Arrange(output: string, args: Args) returns (r: Result<seq<string>>)
    ensures r == MakeCmdSpec(Discovery.ConnectedScreens(SplitLines(output)), args)
  {
    var screens := Discovery.GetConnectedScreens(output);
    var a := new string[|screens|](i requires 0 <= i < |screens| => screens[i]);
    assert a[..] == screens;
    r := MakeCmd(a, args);
  }

  /**
   * For a report of well-formed `xrandr` lines, a command is built exactly when the
   * named primary is one of the connected outputs (or, without a primary, when some
   * output is connected), and the empty-list failure happens exactly when no output is
   * connected and no primary is named.
   */
  lemma ArrangeReport(ls: seq<Discovery.ReportLine>, args: Args)
    requires forall l :: l in ls ==> Discovery.WellFormed(l)
    ensures var r := MakeCmdSpec(Discovery.ConnectedScreens(SplitLines(Terminated(Discovery.LineTexts(ls)))), args);
            var names := Discovery.ConnectedNames(ls);
            (r.Ok? <==> Accepted(names, args))
            && (r == Err(NoScreens) <==> !Given(args.primary) && names == [])
  {
    Discovery.DiscoversConnectedOutputs(ls);
  }
}
