// Command synthesis: `make_cmd` in src/dualmon/cli.py builds the argument list of the
// `xrandr` call that arranges the screens, reordering the caller's screen list in
// place when a primary screen is named.
module Layout {
  import opened Strings

  datatype Option<T> = None | Some(value: T)

  /** Where secondary screens go relative to their predecessor. */
  datatype Side = Left | Right

  /** `PLACE_SECONDARY`: the placement used when neither flag is given. */
  const DefaultSide := Right

  function Keyword(side: Side): string
  {
    match side
    case Left => "left-of"
    case Right => "right-of"
  }

  /** The placement option words `make_cmd` formats as `--{placement}`. */
  lemma PlacementWords()
    ensures "--" + Keyword(Left) == "--left-of" && "--" + Keyword(Right) == "--right-of"
  {
    assert ("--" + Keyword(Left))[2..] == "left-of";
    assert ("--" + Keyword(Right))[2..] == "right-of";
  }

  /** The parsed command line: `--left`, `--right`, `--primary NAME`, `--off`. */
  datatype Args = Args(left: bool, right: bool, primary: Option<string>, off: bool)

  /** `screens.index(primary)` raising ValueError, and `screens[0]` raising IndexError. */
  datatype Error = UnknownPrimary(name: string) | NoScreens

  datatype Result<T> = Ok(value: T) | Err(error: Error)

  /** Python truthiness of `args.primary`: neither None nor the empty string. */
  predicate Given(primary: Option<string>)
  {
    primary.Some? && primary.value != ""
  }

  /** The placement `make_cmd` settles on: the first of `left`, `right` that is set. */
  function ChosenSide(args: Args): Side
  {
    if args.left then Left else if args.right then Right else DefaultSide
  }

  /** A word that cannot be mistaken for one of the option words `make_cmd` emits. */
  predicate NotFlag(s: string)
  {
    !("--" <= s)
  }

  // ---------------------------------------------------------------------------
  // Moving the primary screen to the front

  /** `screens.index(x)`: the position of the first occurrence of `x`. */
  function FirstIndex(s: seq<string>, x: string): (k: nat)
    requires x in s
    ensures k < |s| && s[k] == x && x !in s[..k]
  {
    if s[0] == x then 0
    else
      var k := FirstIndex(s[1..], x) + 1;
      assert s[..k] == [s[0]] + s[1..][..k - 1];
      k
  }

  /** `screens.pop(k)` followed by `screens.insert(0, x)` where `x` was at `k`. */
  function MovedToFront(s: seq<string>, k: nat): (r: seq<string>)
    requires k < |s|
    ensures |r| == |s| && r[0] == s[k]
    ensures multiset(r) == multiset(s)
  {
    assert s == s[..k] + [s[k]] + s[k + 1..];
    [s[k]] + s[..k] + s[k + 1..]
  }

  /** `list.remove(x)`: `s` without the first occurrence of `x`. */
  function RemoveFirst(s: seq<string>, x: string): seq<string>
  {
    if s == [] then []
    else if s[0] == x then s[1..]
    else [s[0]] + RemoveFirst(s[1..], x)
  }

  /** The screen order `make_cmd` leaves in the caller's list. */
  function Reordered(s: seq<string>, primary: Option<string>): (r: seq<string>)
    requires Given(primary) ==> primary.value in s
    ensures multiset(r) == multiset(s) && |r| == |s|
    ensures Given(primary) ==> r[0] == primary.value
  {
    if Given(primary) then MovedToFront(s, FirstIndex(s, primary.value)) else s
  }

  /**
   * Popping the first occurrence of the primary and inserting it at the front puts the
   * primary first, followed by all the other screens in their original order.
   */
  lemma MovedToFrontIsRemoveFirst(s: seq<string>, x: string)
    requires x in s
    ensures MovedToFront(s, FirstIndex(s, x)) == [x] + RemoveFirst(s, x)
  {
    var k := FirstIndex(s, x);
    RemoveFirstAt(s, x);
    assert MovedToFront(s, k) == [x] + (s[..k] + s[k + 1..]);
  }

  /** Removing the first occurrence cuts the list at the index `screens.index` reports. */
  lemma {:induction false} RemoveFirstAt(s: seq<string>, x: string)
    requires x in s
    ensures RemoveFirst(s, x) == s[..FirstIndex(s, x)] + s[FirstIndex(s, x) + 1..]
  {
    if s[0] != x {
      var t := s[1..];
      var k := FirstIndex(t, x);
      assert RemoveFirst(s, x) == [s[0]] + (t[..k] + t[k + 1..]) by {
        RemoveFirstAt(t, x);
      }
      assert FirstIndex(s, x) == k + 1;
      CutAfterHead(s, k);
    } else {
      assert s[..0] + s[1..] == s[1..];
    }
  }

  /** Cutting out position `k + 1` of `s` is keeping its head and cutting position `k` of its tail. */
  lemma CutAfterHead(s: seq<string>, k: nat)
    requires k + 1 < |s|
    ensures s[..k + 1] + s[k + 2..] == [s[0]] + (s[1..][..k] + s[1..][k + 1..])
  {
    assert s[..k + 1] == [s[0]] + s[1..][..k];
    assert s[k + 2..] == s[1..][k + 1..];
  }

  /**
   * With a primary given, the reordered list is that primary followed by the list
   * without its first occurrence; without one, the list is left as it is.
   */
  lemma ReorderedPutsPrimaryFirst(s: seq<string>, primary: Option<string>)
    requires Given(primary) ==> primary.value in s
    ensures Given(primary) ==> Reordered(s, primary) == [primary.value] + RemoveFirst(s, primary.value)
    ensures !Given(primary) ==> Reordered(s, primary) == s
  {
    if Given(primary) {
      MovedToFrontIsRemoveFirst(s, primary.value);
    }
  }

  /** Reordering a list that was already reordered changes nothing. */
  lemma ReorderedIdempotent(s: seq<string>, primary: Option<string>)
    requires Given(primary) ==> primary.value in s
    ensures Reordered(Reordered(s, primary), primary) == Reordered(s, primary)
  {
    if Given(primary) {
      var r := Reordered(s, primary);
      assert FirstIndex(r, primary.value) == 0;
      assert MovedToFront(r, 0) == r;
    }
  }

  // ---------------------------------------------------------------------------
  // Off mode

  /** One `--output s --off` group per screen of `ss`, in order. */
  function OffGroups(ss: seq<string>): seq<string>
  {
    if ss == [] then []
    else OffGroups(ss[..|ss| - 1]) + ["--output", ss[|ss| - 1], "--off"]
  }

  /** The off-mode command: every screen after the first is switched off. */
  function OffCommand(ordered: seq<string>): seq<string>
    requires ordered != []
  {
    ["xrandr"] + OffGroups(ordered[1..])
  }

  /** The j-th screen of `ss` fills positions 3j..3j+2 of its off groups. */
  lemma {:induction false} OffGroupsShape(ss: seq<string>)
    ensures |OffGroups(ss)| == 3 * |ss|
    ensures forall j :: 0 <= j < |ss| ==>
              OffGroups(ss)[3 * j] == "--output" && OffGroups(ss)[3 * j + 1] == ss[j]
              && OffGroups(ss)[3 * j + 2] == "--off"
  {
    if ss != [] {
      var n := |ss| - 1;
      OffGroupsShape(ss[..n]);
      assert forall j :: 0 <= j < n ==> ss[..n][j] == ss[j];
    }
  }

  /** A word that is no screen of `ss` and neither `--output` nor `--off` is not in their off groups. */
  lemma {:induction false} OffGroupsOmit(ss: seq<string>, x: string)
    requires x !in ss && x != "--output" && x != "--off"
    ensures x !in OffGroups(ss)
  {
    if ss != [] {
      var n := |ss| - 1;
      assert forall s :: s in ss[..n] ==> s in ss;
      OffGroupsOmit(ss[..n], x);
    }
  }

  // ---------------------------------------------------------------------------
  // Normal mode

  /**
   * The option text `make_cmd` formats for the screen at index `i`, before `split()`:
   * switch it on, place it beside its predecessor (not beside the primary), and mark it
   * primary when it is the named primary.
   */
  function GroupText(ordered: seq<string>, i: nat, side: Side, primary: Option<string>): string
    requires i < |ordered|
  {
    var s := ordered[i];
    "--output " + s + " --auto"
    + (if i != 0 then " --" + Keyword(side) + " " + ordered[i - 1] else "")
    + (if primary == Some(s) then " --primary" else "")
  }

  /** The words the screen at index `i` adds to the command. */
  function Group(ordered: seq<string>, i: nat, side: Side, primary: Option<string>): seq<string>
    requires i < |ordered|
  {
    ["--output", ordered[i], "--auto"]
    + (if i > 0 then ["--" + Keyword(side), ordered[i - 1]] else [])
    + (if primary == Some(ordered[i]) then ["--primary"] else [])
  }

  /** The groups of the first `n` screens, concatenated: the normal-mode loop after `n` rounds. */
  function Groups(ordered: seq<string>, n: nat, side: Side, primary: Option<string>): seq<string>
    requires n <= |ordered|
  {
    if n == 0 then [] else Groups(ordered, n - 1, side, primary) + Group(ordered, n - 1, side, primary)
  }

  function NormalCommand(ordered: seq<string>, side: Side, primary: Option<string>): seq<string>
  {
    ["xrandr"] + Groups(ordered, |ordered|, side, primary)
  }

  /** Every screen name is a single word, as `get_connected_screens` delivers them. */
  predicate AllTokens(ss: seq<string>)
  {
    forall s :: s in ss ==> IsToken(s)
  }

  /** The option words `make_cmd` emits are single words. */
  lemma OptionWordsAreTokens(side: Side)
    ensures IsToken("--output") && IsToken("--auto") && IsToken("--primary")
    ensures IsToken("--" + Keyword(side))
  {
  }

  lemma JoinPair(a: string, b: string)
    ensures Join([a, b], " ") == a + " " + b
  {
    assert [a, b][1..] == [b];
  }

  lemma JoinHead(s: string)
    ensures Join(["--output", s, "--auto"], " ") == "--output " + s + " --auto"
  {
    assert ["--output", s, "--auto"][1..] == [s, "--auto"];
    JoinPair(s, "--auto");
    assert "--output " + s + " --auto" == "--output" + " " + (s + " " + "--auto");
  }

  lemma JoinHeadPlace(head: seq<string>, a: string, keyword: string, prev: string)
    requires head != [] && Join(head, " ") == a
    ensures Join(head + [keyword, prev], " ") == a + (" " + keyword + " " + prev)
  {
    JoinPair(keyword, prev);
    JoinAppend(head, [keyword, prev], " ");
  }

  lemma JoinMark(words: seq<string>, text: string)
    requires words != [] && Join(words, " ") == text
    ensures Join(words + ["--primary"], " ") == text + " --primary"
  {
    JoinAppend(words, ["--primary"], " ");
  }

  /** The formatted option text is the group's words joined by single spaces. */
  lemma GroupTextIsJoin(ordered: seq<string>, i: nat, side: Side, primary: Option<string>)
    requires i < |ordered|
    ensures GroupText(ordered, i, side, primary) == Join(Group(ordered, i, side, primary), " ")
  {
    var s := ordered[i];
    var head := ["--output", s, "--auto"];
    var a := "--output " + s + " --auto";
    JoinHead(s);
    var hp, b := head, "";
    if i > 0 {
      hp := head + ["--" + Keyword(side), ordered[i - 1]];
      b := " --" + Keyword(side) + " " + ordered[i - 1];
      JoinHeadPlace(head, a, "--" + Keyword(side), ordered[i - 1]);
    }
    assert Join(hp, " ") == a + b;
    if primary == Some(s) {
      JoinMark(hp, a + b);
      assert Group(ordered, i, side, primary) == hp + ["--primary"];
      assert GroupText(ordered, i, side, primary) == a + b + " --primary";
    } else {
      assert Group(ordered, i, side, primary) == hp;
      assert GroupText(ordered, i, side, primary) == a + b;
    }
  }

  /**
   * `opts.split()` of the formatted text is exactly the group's words when the screen
   * and its predecessor have single-word names.
   */
  lemma GroupTextSplits(ordered: seq<string>, i: nat, side: Side, primary: Option<string>)
    requires i < |ordered|
    requires IsToken(ordered[i]) && (i > 0 ==> IsToken(ordered[i - 1]))
    ensures Words(GroupText(ordered, i, side, primary)) == Group(ordered, i, side, primary)
  {
    GroupTextIsJoin(ordered, i, side, primary);
    OptionWordsAreTokens(side);
    WordsOfJoin(Group(ordered, i, side, primary));
  }

  /** The groups of fewer screens are a prefix of the groups of more. */
  lemma {:induction false} GroupsPrefix(ordered: seq<string>, m: nat, n: nat, side: Side, primary: Option<string>)
    requires m <= n <= |ordered|
    ensures Groups(ordered, m, side, primary) <= Groups(ordered, n, side, primary)
  {
    if m < n {
      GroupsPrefix(ordered, m, n - 1, side, primary);
    }
  }

  /** How many times `x` occurs in `s`. */
  function Count(s: seq<string>, x: string): nat
  {
    if s == [] then 0 else Count(s[..|s| - 1], x) + if s[|s| - 1] == x then 1 else 0
  }

  lemma {:induction false} CountAppend(a: seq<string>, b: seq<string>, x: string)
    ensures Count(a + b, x) == Count(a, x) + Count(b, x)
  {
    if b != [] {
      var n := |b| - 1;
      assert (a + b)[..|a + b| - 1] == a + b[..n];
      CountAppend(a, b[..n], x);
    } else {
      assert a + b == a;
    }
  }

  lemma {:induction false} CountAbsent(s: seq<string>, x: string)
    requires x !in s
    ensures Count(s, x) == 0
  {
    if s != [] {
      assert forall y :: y in s[..|s| - 1] ==> y in s;
      CountAbsent(s[..|s| - 1], x);
    }
  }

  /** Count is the multiplicity in the multiset of the sequence. */
  lemma {:induction false} CountIsMultiplicity(s: seq<string>, x: string)
    ensures Count(s, x) == multiset(s)[x]
  {
    if s != [] {
      var n := |s| - 1;
      assert s == s[..n] + [s[n]];
      CountIsMultiplicity(s[..n], x);
    }
  }

  /** One screen's group holds `--primary` once when the screen is the named primary, else not at all. */
  lemma GroupPrimaryCount(ordered: seq<string>, i: nat, side: Side, primary: Option<string>)
    requires i < |ordered| && "--primary" !in ordered
    ensures Count(Group(ordered, i, side, primary), "--primary") ==
            if primary == Some(ordered[i]) then 1 else 0
  {
    var s := ordered[i];
    var head := ["--output", s, "--auto"];
    assert Count(head, "--primary") == 0 by {
      CountAbsent(head, "--primary");
    }
    var place := if i > 0 then ["--" + Keyword(side), ordered[i - 1]] else [];
    assert Count(place, "--primary") == 0 by {
      if i > 0 {
        assert ordered[i - 1] in ordered;
        assert "--" + Keyword(side) != "--primary" by {
          assert ("--" + Keyword(side))[2] != 'p';
        }
      }
      CountAbsent(place, "--primary");
    }
    var mark := if primary == Some(s) then ["--primary"] else [];
    assert Count(mark, "--primary") == if primary == Some(s) then 1 else 0 by {
      if primary == Some(s) { assert mark[..0] == []; } else { CountAbsent(mark, "--primary"); }
    }
    assert Group(ordered, i, side, primary) == head + place + mark;
    CountAppend(head, place, "--primary");
    CountAppend(head + place, mark, "--primary");
  }

  /**
   * The groups of the first `n` screens hold `--primary` once per screen among them
   * that equals the named primary.
   */
  lemma {:induction false} GroupsPrimaryCount(ordered: seq<string>, n: nat, side: Side, primary: Option<string>)
    requires n <= |ordered| && "--primary" !in ordered
    ensures Count(Groups(ordered, n, side, primary), "--primary") ==
            if primary.Some? then Count(ordered[..n], primary.value) else 0
  {
    if n > 0 {
      GroupsPrimaryCount(ordered, n - 1, side, primary);
      GroupPrimaryCount(ordered, n - 1, side, primary);
      CountAppend(Groups(ordered, n - 1, side, primary), Group(ordered, n - 1, side, primary), "--primary");
      assert ordered[..n][..n - 1] == ordered[..n - 1];
    }
  }

  /** The same count for all the groups of a permutation `ordered` of `screens`. */
  lemma AllGroupsPrimaryCount(ordered: seq<string>, screens: seq<string>, side: Side, primary: Option<string>)
    requires multiset(ordered) == multiset(screens) && "--primary" !in screens
    ensures multiset(Groups(ordered, |ordered|, side, primary))["--primary"] ==
            if primary.Some? then multiset(screens)[primary.value] else 0
  {
    assert "--primary" !in ordered by {
      assert multiset(ordered)["--primary"] == multiset(screens)["--primary"];
    }
    assert ordered[..|ordered|] == ordered;
    GroupsPrimaryCount(ordered, |ordered|, side, primary);
    CountIsMultiplicity(Groups(ordered, |ordered|, side, primary), "--primary");
    if primary.Some? {
      CountIsMultiplicity(ordered, primary.value);
    }
  }

  /** Two commands that are equal except that the first may say left-of where the second says right-of. */
  predicate DifferOnlyInPlacement(l: seq<string>, r: seq<string>)
  {
    |l| == |r| && forall k :: 0 <= k < |l| ==> l[k] == r[k] || (l[k] == "--left-of" && r[k] == "--right-of")
  }

  lemma DifferOnlyInPlacementAppend(l1: seq<string>, r1: seq<string>, l2: seq<string>, r2: seq<string>)
    requires DifferOnlyInPlacement(l1, r1) && DifferOnlyInPlacement(l2, r2)
    ensures DifferOnlyInPlacement(l1 + l2, r1 + r2)
  {
  }

  lemma GroupLeftRight(ordered: seq<string>, i: nat, primary: Option<string>)
    requires i < |ordered|
    ensures DifferOnlyInPlacement(Group(ordered, i, Left, primary), Group(ordered, i, Right, primary))
  {
    PlacementWords();
    var head := ["--output", ordered[i], "--auto"];
    var mark := if primary == Some(ordered[i]) then ["--primary"] else [];
    if i > 0 {
      assert DifferOnlyInPlacement(["--left-of", ordered[i - 1]], ["--right-of", ordered[i - 1]]);
      DifferOnlyInPlacementAppend(head, head, ["--left-of", ordered[i - 1]], ["--right-of", ordered[i - 1]]);
      DifferOnlyInPlacementAppend(head + ["--left-of", ordered[i - 1]], head + ["--right-of", ordered[i - 1]], mark, mark);
    } else {
      DifferOnlyInPlacementAppend(head, head, [], []);
      DifferOnlyInPlacementAppend(head + [], head + [], mark, mark);
    }
  }

  lemma {:induction false} GroupsLeftRight(ordered: seq<string>, n: nat, primary: Option<string>)
    requires n <= |ordered|
    ensures DifferOnlyInPlacement(Groups(ordered, n, Left, primary), Groups(ordered, n, Right, primary))
  {
    if n > 0 {
      GroupsLeftRight(ordered, n - 1, primary);
      GroupLeftRight(ordered, n - 1, primary);
      DifferOnlyInPlacementAppend(Groups(ordered, n - 1, Left, primary), Groups(ordered, n - 1, Right, primary),
                                  Group(ordered, n - 1, Left, primary), Group(ordered, n - 1, Right, primary));
    }
  }

  // ---------------------------------------------------------------------------
  // The whole of make_cmd

  /** The requests `make_cmd` answers without raising. */
  predicate Accepted(screens: seq<string>, args: Args)
  {
    if Given(args.primary) then args.primary.value in screens else screens != []
  }

  /**
   * What `make_cmd(screens, args)` returns: the ValueError of `screens.index` for a named
   * primary that is not a screen, the IndexError of `screens[0]` for an empty list
   * without a primary, and otherwise the `xrandr` command for the reordered screens.
   * Screen names are single words, so each formatted option text splits into its
   * group (GroupTextSplits).
   */
  function MakeCmdSpec(screens: seq<string>, args: Args): (r: Result<seq<string>>)
    requires AllTokens(screens)
    ensures r.Ok? <==> Accepted(screens, args)
    ensures r == Err(NoScreens) <==> !Given(args.primary) && screens == []
    ensures r.Ok? ==> |r.value| > 0 && r.value[0] == "xrandr"
  {
    if Given(args.primary) && args.primary.value !in screens then Err(UnknownPrimary(args.primary.value))
    else if !Given(args.primary) && screens == [] then Err(NoScreens)
    else
      var ordered := Reordered(screens, args.primary);
      if args.off then Ok(OffCommand(ordered))
      else Ok(NormalCommand(ordered, ChosenSide(args), args.primary))
  }

  /**
   * Off mode: "xrandr" followed by one `--output s --off` group for each screen after
   * the first of the reordered list, in order; the first screen (the primary) is not
   * named at all unless its name occurs twice.
   */
  lemma OffModeCommand(screens: seq<string>, args: Args)
    requires AllTokens(screens) && args.off && Accepted(screens, args)
    ensures var cmd := MakeCmdSpec(screens, args).value;
            var o := Reordered(screens, args.primary);
            |cmd| == 1 + 3 * (|screens| - 1)
            && (forall j :: 0 <= j < |o| - 1 ==>
                  cmd[1 + 3 * j] == "--output" && cmd[2 + 3 * j] == o[j + 1] && cmd[3 + 3 * j] == "--off")
            && (NotFlag(o[0]) && o[0] !in o[1..] ==> o[0] !in cmd[1..])
  {
    var o := Reordered(screens, args.primary);
    var cmd := MakeCmdSpec(screens, args).value;
    assert cmd[1..] == OffGroups(o[1..]);
    OffGroupsShape(o[1..]);
    if NotFlag(o[0]) && o[0] !in o[1..] {
      OffGroupsOmit(o[1..], o[0]);
    }
  }

  /** Off mode never switches a screen on, never marks a primary and places nothing. */
  lemma OffModeOnlySwitchesOff(screens: seq<string>, args: Args)
    requires AllTokens(screens) && args.off && Accepted(screens, args)
    requires forall s :: s in screens ==> NotFlag(s)
    ensures var cmd := MakeCmdSpec(screens, args).value;
            "--auto" !in cmd && "--primary" !in cmd && "--left-of" !in cmd && "--right-of" !in cmd
  {
    var o := Reordered(screens, args.primary);
    var rest := o[1..];
    assert forall s :: s in rest ==> NotFlag(s) by {
      forall s | s in rest ensures NotFlag(s) {
        assert s in multiset(o);
      }
    }
    OffGroupsOmit(rest, "--auto");
    OffGroupsOmit(rest, "--primary");
    OffGroupsOmit(rest, "--left-of");
    OffGroupsOmit(rest, "--right-of");
  }

  /**
   * Normal mode: "xrandr" followed by one group per reordered screen, in order: the
   * command begins with the groups of the screens before `i` and then the group of
   * screen `i`, and the group of the last screen ends it.
   */
  lemma NormalModeCommand(screens: seq<string>, args: Args)
    requires AllTokens(screens) && !args.off && Accepted(screens, args)
    ensures var o := Reordered(screens, args.primary);
            var side := ChosenSide(args);
            var cmd := MakeCmdSpec(screens, args).value;
            (forall i :: 0 <= i < |o| ==>
               ["xrandr"] + Groups(o, i, side, args.primary) + Group(o, i, side, args.primary) <= cmd)
            && cmd == ["xrandr"] + Groups(o, |o| - 1, side, args.primary) + Group(o, |o| - 1, side, args.primary)
  {
    var o := Reordered(screens, args.primary);
    var side := ChosenSide(args);
    var cmd := MakeCmdSpec(screens, args).value;
    var all := Groups(o, |o|, side, args.primary);
    assert cmd == ["xrandr"] + all;
    forall i | 0 <= i < |o|
      ensures ["xrandr"] + Groups(o, i, side, args.primary) + Group(o, i, side, args.primary) <= cmd
    {
      GroupsPrefix(o, i + 1, |o|, side, args.primary);
      assert Groups(o, i + 1, side, args.primary)
          == Groups(o, i, side, args.primary) + Group(o, i, side, args.primary);
      PrefixAfterHead("xrandr", Groups(o, i, side, args.primary), Group(o, i, side, args.primary), all);
    }
    assert all == Groups(o, |o| - 1, side, args.primary) + Group(o, |o| - 1, side, args.primary);
    PrefixAfterHead("xrandr", Groups(o, |o| - 1, side, args.primary), Group(o, |o| - 1, side, args.primary), all);
  }

  lemma PrefixAfterHead(x: string, a: seq<string>, b: seq<string>, c: seq<string>)
    requires a + b <= c
    ensures [x] + a + b <= [x] + c
    ensures a + b == c ==> [x] + a + b == [x] + c
  {
    assert [x] + a + b == [x] + (a + b);
  }

  /**
   * Normal mode marks as primary exactly the screens equal to the named primary: the
   * command holds one `--primary` per such screen, and none when no primary is named.
   */
  lemma PrimaryMarks(screens: seq<string>, args: Args)
    requires AllTokens(screens) && !args.off && Accepted(screens, args)
    requires "--primary" !in screens
    ensures multiset(MakeCmdSpec(screens, args).value)["--primary"] ==
            if args.primary.Some? then multiset(screens)[args.primary.value] else 0
    ensures args.primary.None? ==> "--primary" !in MakeCmdSpec(screens, args).value
  {
    var o := Reordered(screens, args.primary);
    var groups := Groups(o, |o|, ChosenSide(args), args.primary);
    var cmd := MakeCmdSpec(screens, args).value;
    assert cmd == ["xrandr"] + groups;
    AllGroupsPrimaryCount(o, screens, ChosenSide(args), args.primary);
    assert multiset(cmd)["--primary"] == multiset(groups)["--primary"] by {
      assert multiset(cmd) == multiset(["xrandr"]) + multiset(groups);
    }
  }

  /**
   * Choosing left instead of right changes nothing but the placement words: the two
   * commands agree everywhere except where one says `--left-of` and the other
   * `--right-of`, and in off mode they are identical.
   */
  lemma PlacementOnlyChangesKeyword(screens: seq<string>, args: Args)
    requires AllTokens(screens)
    ensures var l := MakeCmdSpec(screens, args.(left := true));
            var r := MakeCmdSpec(screens, args.(left := false));
            l.Ok? == r.Ok?
            && (l.Ok? ==> DifferOnlyInPlacement(l.value, r.value))
            && (l.Ok? && args.off ==> l.value == r.value)
  {
    var l := MakeCmdSpec(screens, args.(left := true));
    if l.Ok? && !args.off {
      var o := Reordered(screens, args.primary);
      GroupsLeftRight(o, |o|, args.primary);
    }
  }

  /**
   * `make_cmd` leaves the caller's list reordered; calling it again on that list gives
   * the same command.
   */
  lemma MakeCmdRepeatable(screens: seq<string>, args: Args)
    requires AllTokens(screens) && Accepted(screens, args)
    ensures AllTokens(Reordered(screens, args.primary))
    ensures MakeCmdSpec(Reordered(screens, args.primary), args) == MakeCmdSpec(screens, args)
  {
    ReorderedIdempotent(screens, args.primary);
    var o := Reordered(screens, args.primary);
    forall s | s in o ensures IsToken(s) {
      assert s in multiset(o);
    }
    if Given(args.primary) {
      assert args.primary.value in multiset(o);
    }
  }

  // ---------------------------------------------------------------------------
  // The steps of make_cmd

  /** `args.__dict__[key]` for the placement flags. */
  predicate IsSet(args: Args, key: Side)
  {
    match key
    case Left => args.left
    case Right => args.right
  }

  /**
   * The placement loop: try `left` then `right`, take the first that is set, and keep
   * the default `right-of` when neither is.
   */
  method ChoosePlacement(args: Args) returns (side: Side)
    ensures side == ChosenSide(args)
    ensures side == Left <==> args.left
  {
    side := DefaultSide;
    var keys := [Left, Right];
    var i := 0;
    while i < |keys|
      invariant 0 <= i <= |keys|
      invariant side == DefaultSide
      invariant i > 0 ==> !args.left
      invariant i > 1 ==> !args.right
    {
      if IsSet(args, keys[i]) {
        side := keys[i];
        break;
      }
      i := i + 1;
    }
  }

  /** `screens.index(x)`: the first position of `x`, or None where Python raises ValueError. */
  method IndexOf(a: array<string>, x: string) returns (r: Option<nat>)
    ensures r.None? <==> x !in a[..]
    ensures r.Some? ==> r.value < a.Length && a[r.value] == x && x !in a[..r.value]
    ensures r.Some? ==> r.value == FirstIndex(a[..], x)
  {
    var i := 0;
    while i < a.Length
      invariant 0 <= i <= a.Length
      invariant x !in a[..i]
    {
      if a[i] == x {
        FirstIndexIsFirst(a[..], x, i);
        return Some(i);
      }
      assert a[..i + 1] == a[..i] + [a[i]];
      i := i + 1;
    }
    assert a[..i] == a[..];
    return None;
  }

  /** The first position holding `x` is the one FirstIndex names. */
  lemma FirstIndexIsFirst(s: seq<string>, x: string, i: nat)
    requires i < |s| && s[i] == x && x !in s[..i]
    ensures FirstIndex(s, x) == i
  {
    var k := FirstIndex(s, x);
    assert forall j :: 0 <= j < i ==> s[..i][j] == s[j];
    assert forall j :: 0 <= j < k ==> s[..k][j] == s[j];
  }

  /**
   * `screens.pop(k)` then `screens.insert(0, x)`, done in place: the screens before `k`
   * move up one slot and the popped screen fills the first.
   */
  method MoveToFront(a: array<string>, k: nat)
    requires k < a.Length
    modifies a
    ensures a[..] == MovedToFront(old(a[..]), k)
  {
    var x := a[k];
    var j := k;
    while j > 0
      invariant 0 <= j <= k
      invariant forall m :: 0 <= m < j ==> a[m] == old(a[m])
      invariant forall m :: j < m <= k ==> a[m] == old(a[m - 1])
      invariant forall m :: k < m < a.Length ==> a[m] == old(a[m])
    {
      a[j] := a[j - 1];
      j := j - 1;
    }
    a[0] := x;
    ghost var was := old(a[..]);
    assert forall m :: 0 <= m < a.Length ==> a[..][m] == MovedToFront(was, k)[m];
  }

  /** The off-mode loop: one `--output s --off` group for each screen after the first. */
  method BuildOffCommand(ordered: seq<string>) returns (cmd: seq<string>)
    requires ordered != []
    ensures cmd == OffCommand(ordered)
  {
    cmd := ["xrandr"];
    var rest := ordered[1..];
    for i := 0 to |rest|
      invariant cmd == ["xrandr"] + OffGroups(rest[..i])
    {
      assert rest[..i + 1][..i] == rest[..i];
      cmd := cmd + ["--output", rest[i], "--off"];
    }
    assert rest[..|rest|] == rest;
  }

  /**
   * The normal-mode loop: for each screen, its option words -- `--output s --auto`,
   * the placement beside the previous screen from the second screen on, and
   * `--primary` when it equals the named primary -- extend the command.
   */
  method BuildNormalCommand(ordered: seq<string>, side: Side, primary: Option<string>) returns (cmd: seq<string>)
    requires AllTokens(ordered)
    ensures cmd == NormalCommand(ordered, side, primary)
  {
    cmd := ["xrandr"];
    for i := 0 to |ordered|
      invariant cmd == ["xrandr"] + Groups(ordered, i, side, primary)
    {
      var screen := ordered[i];
      var opts := ["--output", screen, "--auto"];
      if i != 0 {
        opts := opts + ["--" + Keyword(side), ordered[i - 1]];
      }
      if primary == Some(screen) {
        opts := opts + ["--primary"];
      }
      assert opts == Group(ordered, i, side, primary);
      GroupsStep(cmd, ordered, i, side, primary);
      cmd := cmd + opts;
    }
  }

  lemma GroupsStep(cmd: seq<string>, ordered: seq<string>, i: nat, side: Side, primary: Option<string>)
    requires i < |ordered| && cmd == ["xrandr"] + Groups(ordered, i, side, primary)
    ensures cmd + Group(ordered, i, side, primary) == ["xrandr"] + Groups(ordered, i + 1, side, primary)
  {
  }

  /**
   * `make_cmd(screens, args)` on the caller's list: returns what MakeCmdSpec says, and
   * leaves the list reordered (primary first) when it succeeds, untouched when it fails.
   */
  method MakeCmd(screens: array<string>, args: Args) returns (r: Result<seq<string>>)
    requires AllTokens(screens[..])
    modifies screens
    ensures r == MakeCmdSpec(old(screens[..]), args)
    ensures screens[..] == if r.Ok? then Reordered(old(screens[..]), args.primary) else old(screens[..])
  {
    var side := ChoosePlacement(args);
    var primary := args.primary;
    if Given(primary) {
      var k := IndexOf(screens, primary.value);
      if k.None? {
        return Err(UnknownPrimary(primary.value));
      }
      MoveToFront(screens, k.value);
    } else if screens.Length == 0 {
      return Err(NoScreens);
    }
    ghost var o := screens[..];
    forall s | s in o ensures IsToken(s) {
      assert s in multiset(o);
    }
    var cmd;
    if args.off {
      cmd := BuildOffCommand(screens[..]);
    } else {
      cmd := BuildNormalCommand(screens[..], side, primary);
    }
    return Ok(cmd);
  }
}
