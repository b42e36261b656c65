/** Pad arbitration against its declarative meaning: who wins each pin's
    direction and level, and why the intermediate resolves of a tick are
    equivalent to one resolve at its end. */
module PadResolve {
  import opened Pads

  /** Claim `j` drives the direction of `pin` and outranks every other such
      claim: enabled beats disabled, then the later owner slot and state machine. */
  ghost predicate WinsDirection(cs: seq<Claim>, pin: nat, j: nat) {
    && j < |cs| && pin in cs[j].driven
    && forall i :: 0 <= i < |cs| && pin in cs[i].driven && i != j ==>
         (cs[j].enabled && !cs[i].enabled) || (cs[j].enabled == cs[i].enabled && i < j)
  }

  /** Claim `j` is the last one that wrote the level of `pin` this cycle. */
  ghost predicate WinsLevel(cs: seq<Claim>, pin: nat, j: nat) {
    && j < |cs| && pin in cs[j].written
    && forall i :: j < i < |cs| ==> pin !in cs[i].written
  }

  ghost predicate Unclaimed(cs: seq<Claim>, pin: nat) {
    forall i :: 0 <= i < |cs| ==> pin !in cs[i].driven
  }

  ghost predicate Unwritten(cs: seq<Claim>, pin: nat) {
    forall i :: 0 <= i < |cs| ==> pin !in cs[i].written
  }

  lemma {:induction false} FoldLevelsUnwritten(cs: seq<Claim>, val: Pins, pin: nat)
    requires Unwritten(cs, pin)
    ensures pin in FoldLevels(cs, val) <==> pin in val
  {
    if cs != [] {
      assert pin !in cs[|cs| - 1].written;
      FoldLevelsUnwritten(cs[..|cs| - 1], val, pin);
    }
  }

  lemma {:induction false} FoldLevelsWinner(cs: seq<Claim>, val: Pins, pin: nat, j: nat)
    requires WinsLevel(cs, pin, j)
    ensures pin in FoldLevels(cs, val) <==> pin in cs[j].val
  {
    if j < |cs| - 1 {
      assert pin !in cs[|cs| - 1].written;
      FoldLevelsWinner(cs[..|cs| - 1], val, pin, j);
    }
  }

  /** One direction pass: the last claim of that class decides, else the start. */
  lemma {:induction false} FoldDirsPass(cs: seq<Claim>, oe: Pins, pass: bool, pin: nat, j: nat)
    requires j <= |cs|
    requires forall i :: j <= i < |cs| ==> !(cs[i].enabled == pass && pin in cs[i].driven)
    requires j > 0 ==> cs[j - 1].enabled == pass && pin in cs[j - 1].driven
    ensures pin in FoldDirs(cs, oe, pass) <==> if j == 0 then pin in oe else pin in cs[j - 1].oe
  {
    if j < |cs| {
      assert !(cs[|cs| - 1].enabled == pass && pin in cs[|cs| - 1].driven);
      FoldDirsPass(cs[..|cs| - 1], oe, pass, pin, j);
    }
  }

  /** One past the last claim of a class on a pin; 0 if there is none. */
  ghost function LastOf(cs: seq<Claim>, pass: bool, pin: nat): (j: nat)
    ensures j <= |cs|
    ensures forall i :: j <= i < |cs| ==> !(cs[i].enabled == pass && pin in cs[i].driven)
    ensures j > 0 ==> cs[j - 1].enabled == pass && pin in cs[j - 1].driven
  {
    if cs == [] then 0
    else if cs[|cs| - 1].enabled == pass && pin in cs[|cs| - 1].driven then |cs|
    else LastOf(cs[..|cs| - 1], pass, pin)
  }

  /** Directions: the greatest claimant under (enabled, owner slot, number)
      decides; a pin nobody claims is an input. */
  lemma ResolveDirection(p: Pads, cs: seq<Claim>, pin: nat, j: nat)
    requires WinsDirection(cs, pin, j)
    ensures pin in Resolve(p, cs).dirs <==> pin in cs[j].oe
  {
    var on, off := LastOf(cs, true, pin), LastOf(cs, false, pin);
    var first := FoldDirs(cs, {}, false);
    FoldDirsPass(cs, {}, false, pin, off);
    FoldDirsPass(cs, first, true, pin, on);
    if cs[j].enabled {
      assert on == j + 1;
    } else {
      assert on == 0 && off == j + 1;
    }
  }

  lemma ResolveUnclaimed(p: Pads, cs: seq<Claim>, pin: nat)
    requires Unclaimed(cs, pin)
    ensures pin !in Resolve(p, cs).dirs
  {
    FoldDirsPass(cs, {}, false, pin, 0);
    FoldDirsPass(cs, FoldDirs(cs, {}, false), true, pin, 0);
  }

  /** Some claim wins every contested pin, so the two cases above are all. */
  lemma DirectionDecided(cs: seq<Claim>, pin: nat)
    ensures Unclaimed(cs, pin) || exists j :: WinsDirection(cs, pin, j)
  {
    var on, off := LastOf(cs, true, pin), LastOf(cs, false, pin);
    if on > 0 {
      assert WinsDirection(cs, pin, on - 1);
    } else if off > 0 {
      assert WinsDirection(cs, pin, off - 1);
    }
  }

  /** Levels: the last writer of this cycle decides; an unwritten pin holds. */
  lemma ResolveLevel(p: Pads, cs: seq<Claim>, pin: nat, j: nat)
    ensures WinsLevel(cs, pin, j) ==> (pin in Resolve(p, cs).levels <==> pin in cs[j].val)
    ensures Unwritten(cs, pin) ==> (pin in Resolve(p, cs).levels <==> pin in p.levels)
  {
    if WinsLevel(cs, pin, j) { FoldLevelsWinner(cs, p.levels, pin, j); }
    if Unwritten(cs, pin) { FoldLevelsUnwritten(cs, p.levels, pin); }
  }

  lemma {:induction false} LevelDecided(cs: seq<Claim>, pin: nat)
    ensures Unwritten(cs, pin) || exists j :: WinsLevel(cs, pin, j)
  {
    if cs != [] {
      var n := |cs| - 1;
      if pin in cs[n].written {
        assert WinsLevel(cs, pin, n);
      } else {
        LevelDecided(cs[..n], pin);
        if !Unwritten(cs[..n], pin) {
          var j :| WinsLevel(cs[..n], pin, j);
          assert WinsLevel(cs, pin, j);
        }
      }
    }
  }

  /** The level loop with its running mask, and the two direction passes, as the
      source writes them. */
  method ResolveLoops(p: Pads, cs: seq<Claim>) returns (r: Pads)
    ensures r == Resolve(p, cs)
  {
    var oe, val := {}, p.levels;
    for i := 0 to |cs|
      invariant val == FoldLevels(cs[..i], p.levels)
      invariant oe == FoldDirs(cs[..i], {}, false)
    {
      assert cs[..i + 1][..i] == cs[..i];
      var driven := if cs[i].enabled then {} else cs[i].driven;
      val := (val - cs[i].written) + (cs[i].val * cs[i].written);
      oe := (oe - driven) + (cs[i].oe * driven);
    }
    assert cs[..|cs|] == cs;
    ghost var first := oe;
    for i := 0 to |cs|
      invariant oe == FoldDirs(cs[..i], first, true)
    {
      assert cs[..i + 1][..i] == cs[..i];
      if !cs[i].enabled {
        continue;
      }
      oe := (oe - cs[i].driven) + (cs[i].oe * cs[i].driven);
    }
    r := p.(dirs := oe, levels := val);
  }
}
