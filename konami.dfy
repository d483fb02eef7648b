/** The Konami-code easter egg of script.js: a global index into the
    ten-key code, advanced by a matching key and reset by any other. */
module Konami {

  const KonamiCode: seq<string> :=
    ["ArrowUp", "ArrowUp", "ArrowDown", "ArrowDown", "ArrowLeft",
     "ArrowRight", "ArrowLeft", "ArrowRight", "b", "a"]

  /** The index after one key, and whether the key completed the code. */
  datatype KeyResult = KeyResult(index: nat, activated: bool)

  /** One `keydown`: a key equal to the code at the index advances the
      index, and completing the code activates and starts over; any other
      key resets the index to 0. An index past the end matches no key. */
  function Step(index: nat, key: string): (r: KeyResult)
    ensures r.index < |KonamiCode|
    ensures r.activated <==> index == |KonamiCode| - 1 && key == "a"
    ensures index < |KonamiCode| - 1 && key == KonamiCode[index] ==> r.index == index + 1
    ensures !(index < |KonamiCode| && key == KonamiCode[index]) ==> r.index == 0
    ensures r.activated ==> r.index == 0
  {
    if index < |KonamiCode| && key == KonamiCode[index] then
      var next := index + 1;
      if next == |KonamiCode| then KeyResult(0, true) else KeyResult(next, false)
    else
      KeyResult(0, false)
  }

  /** The index after a run of keys from `index`, and how many activations
      the run fired. */
  datatype RunResult = RunResult(index: nat, activations: nat)

  /** A non-empty run leaves the index inside the code, and each activation
      takes ten keys: the activations times ten plus the final index never
      exceed the starting index plus the keys typed. */
  function Run(index: nat, keys: seq<string>): (r: RunResult)
    ensures keys != [] ==> r.index < |KonamiCode|
    ensures |KonamiCode| * r.activations + r.index <= index + |keys|
    decreases |keys|
  {
    if keys == [] then RunResult(index, 0)
    else
      var s := Step(index, keys[0]);
      var rest := Run(s.index, keys[1..]);
      RunResult(rest.index, rest.activations + (if s.activated then 1 else 0))
  }

  /** From index `i`, the rest of the code fires exactly once and returns to 0. */
  lemma {:induction false} RunRestOfCode(i: nat)
    requires i < |KonamiCode|
    ensures Run(i, KonamiCode[i..]) == RunResult(0, 1)
    decreases |KonamiCode| - i
  {
    assert KonamiCode[i..][0] == KonamiCode[i];
    if i + 1 < |KonamiCode| {
      assert KonamiCode[i..][1..] == KonamiCode[i + 1..];
      RunRestOfCode(i + 1);
    } else {
      assert KonamiCode[i..][1..] == [];
    }
  }

  /** Typing the code from a fresh start fires exactly one activation. */
  lemma CodeActivatesOnce()
    ensures Run(0, KonamiCode) == RunResult(0, 1)
  {
    RunRestOfCode(0);
    assert KonamiCode[0..] == KonamiCode;
  }

  /** The reset does not re-match the key: a third ArrowUp returns the index
      to 0, not to 1, so an extra leading ArrowUp spoils the code. */
  lemma ThreeArrowUpsReset()
    ensures Run(0, ["ArrowUp", "ArrowUp", "ArrowUp"]).index == 0
    ensures Run(0, ["ArrowUp"] + KonamiCode).activations == 0
  {
    var keys := ["ArrowUp"] + KonamiCode;
    assert keys[1..] == KonamiCode;
    assert KonamiCode[1..][1..] == KonamiCode[2..];
  }

  /** The listener's state: the global `konamiIndex`, and, for the proof
      only, every key seen so far. */
  class Matcher {
    var index: nat
    ghost var history: seq<string>

    /** The index stays inside the code and counts how many of the latest
        keys spell the start of the code. */
    ghost predicate Valid()
      reads this
    {
      && index < |KonamiCode|
      && index <= |history|
      && history[|history| - index..] == KonamiCode[..index]
    }

    constructor ()
      ensures Valid() && index == 0 && history == []
    {
      index := 0;
      history := [];
    }

    /** The `keydown` listener; `activated` stands for the call of
        `activateExtraVibes`. */
    method KeyDown(key: string) returns (activated: bool)
      requires Valid()
      modifies this
      ensures Valid()
      ensures history == old(history) + [key]
      ensures KeyResult(index, activated) == Step(old(index), key)
      ensures activated ==> |history| >= |KonamiCode| && history[|history| - |KonamiCode|..] == KonamiCode
    {
      ghost var before := history;
      history := history + [key];
      activated := false;
      if index < |KonamiCode| && key == KonamiCode[index] {
        assert history[|history| - (index + 1)..] == before[|before| - index..] + [key];
        assert KonamiCode[..index + 1] == KonamiCode[..index] + [KonamiCode[index]];
        index := index + 1;
        if index == |KonamiCode| {
          activated := true;
          index := 0;
        }
      } else {
        index := 0;
      }
    }
  }
}
