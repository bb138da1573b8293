// Worked cases of `make_cmd` in src/dualmon/cli.py on three screens named A, B and C.
module Scenarios {
  import opened Strings
  import opened Layout

  lemma ThreeScreensAreTokens()
    ensures AllTokens(["A", "B", "C"])
  {
    assert forall s :: s in ["A", "B", "C"] ==> s == "A" || s == "B" || s == "C";
  }

  /** Naming B as primary moves it in front of A. */
  lemma PrimaryBMovesFirst()
    ensures Reordered(["A", "B", "C"], Some("B")) == ["B", "A", "C"]
  {
    assert FirstIndex(["A", "B", "C"], "B") == 1;
  }

  /** The groups for A, B, C in this order, placed right, without a primary. */
  lemma GroupsRightABC()
    ensures ["xrandr"] + Groups(["A", "B", "C"], 3, Right, None)
         == ["xrandr"] + ["--output", "A", "--auto"] + ["--output", "B", "--auto", "--right-of", "A"]
            + ["--output", "C", "--auto", "--right-of", "B"]
  {
    PlacementWords();
    var o, p := ["A", "B", "C"], None;
    assert Group(o, 0, Right, p) == ["--output", "A", "--auto"];
    assert Group(o, 1, Right, p) == ["--output", "B", "--auto", "--right-of", "A"];
    assert Group(o, 2, Right, p) == ["--output", "C", "--auto", "--right-of", "B"];
    assert Groups(o, 1, Right, p) == Group(o, 0, Right, p);
    assert Groups(o, 2, Right, p) == Groups(o, 1, Right, p) + Group(o, 1, Right, p);
    assert Groups(o, 3, Right, p) == Groups(o, 2, Right, p) + Group(o, 2, Right, p);
  }

  /** The groups for B, A, C in this order, placed left, with B the primary. */
  lemma GroupsLeftBAC()
    ensures ["xrandr"] + Groups(["B", "A", "C"], 3, Left, Some("B"))
         == ["xrandr"] + ["--output", "B", "--auto", "--primary"] + ["--output", "A", "--auto", "--left-of", "B"]
            + ["--output", "C", "--auto", "--left-of", "A"]
  {
    PlacementWords();
    var o, p := ["B", "A", "C"], Some("B");
    assert Group(o, 0, Left, p) == ["--output", "B", "--auto", "--primary"];
    assert Group(o, 1, Left, p) == ["--output", "A", "--auto", "--left-of", "B"];
    assert Group(o, 2, Left, p) == ["--output", "C", "--auto", "--left-of", "A"];
    assert Groups(o, 1, Left, p) == Group(o, 0, Left, p);
    assert Groups(o, 2, Left, p) == Groups(o, 1, Left, p) + Group(o, 1, Left, p);
    assert Groups(o, 3, Left, p) == Groups(o, 2, Left, p) + Group(o, 2, Left, p);
  }

  /** The off groups for A then C. */
  lemma OffGroupsAC()
    ensures ["xrandr"] + OffGroups(["A", "C"]) == ["xrandr"] + ["--output", "A", "--off"] + ["--output", "C", "--off"]
  {
    assert ["A", "C"][..1] == ["A"] && ["A"][..0] == [];
    assert OffGroups(["A"]) == ["--output", "A", "--off"];
    assert OffGroups(["A", "C"]) == ["--output", "A", "--off"] + ["--output", "C", "--off"];
  }

  /**
   * No primary, default placement: each screen right of the one before it, and no
   * `--primary` word, since no screen equals an absent primary.
   */
  lemma ChainRightWithoutPrimary()
    ensures AllTokens(["A", "B", "C"])
    ensures MakeCmdSpec(["A", "B", "C"], Args(false, false, None, false))
         == Ok(["xrandr"] + ["--output", "A", "--auto"]
               + ["--output", "B", "--auto", "--right-of", "A"]
               + ["--output", "C", "--auto", "--right-of", "B"])
  {
    ThreeScreensAreTokens();
    GroupsRightABC();
    var o := ["A", "B", "C"];
    assert MakeCmdSpec(o, Args(false, false, None, false)) == Ok(["xrandr"] + Groups(o, 3, Right, None));
  }

  /** Primary B with `--left`: B moves first, A goes left of B and C left of A. */
  lemma ChainLeftOfPrimary()
    ensures AllTokens(["A", "B", "C"])
    ensures MakeCmdSpec(["A", "B", "C"], Args(true, false, Some("B"), false))
         == Ok(["xrandr"] + ["--output", "B", "--auto", "--primary"]
               + ["--output", "A", "--auto", "--left-of", "B"]
               + ["--output", "C", "--auto", "--left-of", "A"])
  {
    ThreeScreensAreTokens();
    PrimaryBMovesFirst();
    GroupsLeftBAC();
    var o := ["B", "A", "C"];
    assert MakeCmdSpec(["A", "B", "C"], Args(true, false, Some("B"), false))
        == Ok(["xrandr"] + Groups(o, 3, Left, Some("B")));
  }

  /** Primary B in off mode: A and C are switched off and B is not named. */
  lemma OffKeepsOnlyPrimary()
    ensures AllTokens(["A", "B", "C"])
    ensures MakeCmdSpec(["A", "B", "C"], Args(false, false, Some("B"), true))
         == Ok(["xrandr"] + ["--output", "A", "--off"] + ["--output", "C", "--off"])
  {
    ThreeScreensAreTokens();
    PrimaryBMovesFirst();
    OffGroupsAC();
    assert ["B", "A", "C"][1..] == ["A", "C"];
    assert MakeCmdSpec(["A", "B", "C"], Args(false, false, Some("B"), true))
        == Ok(["xrandr"] + OffGroups(["A", "C"]));
  }

  /** A primary that is not connected is refused. */
  lemma UnknownPrimaryRefused()
    ensures AllTokens(["A", "B", "C"])
    ensures MakeCmdSpec(["A", "B", "C"], Args(false, false, Some("D"), false)) == Err(UnknownPrimary("D"))
  {
    ThreeScreensAreTokens();
  }
}
