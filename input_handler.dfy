/**
  `InputHandler`: four key slots (W, A, S, D) held in a boolean array, with a copy of
  the slots as they were before the latest key event. Every press or release runs the
  client's input callback once; `callbackRuns` counts those runs.
*/
module Input {
  import opened Wrappers

  const VK_W: int := 87
  const VK_A: int := 65
  const VK_S: int := 83
  const VK_D: int := 68

  /** The slot a key code drives: W, A, S, D are slots 0..3; other keys drive none. */
  function KeySlot(keyCode: int): (r: Option<nat>)
    ensures r.Some? ==> r.value < 4
    ensures r.Some? <==> keyCode in {VK_W, VK_A, VK_S, VK_D}
  {
    if keyCode == VK_W then Some(0)
    else if keyCode == VK_A then Some(1)
    else if keyCode == VK_S then Some(2)
    else if keyCode == VK_D then Some(3)
    else None
  }

  /** `InputHandler.updateKey` on the key slots, the callback aside. */
  function KeyUpdate(keys: seq<bool>, keyCode: int, pressed: bool): (r: seq<bool>)
    requires |keys| == 4
    ensures |r| == 4
  {
    match KeySlot(keyCode)
    case Some(i) => keys[i := pressed]
    case None => keys
  }

  /** Different key codes drive different slots. */
  lemma KeySlotInjective(a: int, b: int)
    requires KeySlot(a).Some? && KeySlot(a) == KeySlot(b)
    ensures a == b
  {
  }

  /** A key event changes its own slot and nothing else; other keys change nothing. */
  lemma KeyUpdateTouchesOneSlot(keys: seq<bool>, keyCode: int, pressed: bool)
    requires |keys| == 4
    ensures KeySlot(keyCode).None? ==> KeyUpdate(keys, keyCode, pressed) == keys
    ensures KeySlot(keyCode).Some? ==>
              && KeyUpdate(keys, keyCode, pressed)[KeySlot(keyCode).value] == pressed
              && forall i :: 0 <= i < 4 && i != KeySlot(keyCode).value ==>
                   KeyUpdate(keys, keyCode, pressed)[i] == keys[i]
  {
  }

  /** Pressing and then releasing one key leaves its slot up; a slot that was up is restored. */
  lemma PressThenRelease(keys: seq<bool>, keyCode: int)
    requires |keys| == 4
    ensures var r := KeyUpdate(KeyUpdate(keys, keyCode, true), keyCode, false);
            && (KeySlot(keyCode).Some? ==> !r[KeySlot(keyCode).value])
            && (KeySlot(keyCode).Some? && !keys[KeySlot(keyCode).value] ==> r == keys)
            && (KeySlot(keyCode).None? ==> r == keys)
  {
  }

  /** The number of held keys. */
  function CountTrue(s: seq<bool>): (n: nat)
    ensures n <= |s|
    ensures n == 0 <==> forall i :: 0 <= i < |s| ==> !s[i]
    ensures n == |s| <==> forall i :: 0 <= i < |s| ==> s[i]
  {
    if s == [] then 0
    else CountTrue(s[..|s| - 1]) + (if s[|s| - 1] then 1 else 0)
  }

  predicate OppositeKeys(keys: seq<bool>)
    requires |keys| == 4
  {
    (keys[0] && keys[2]) || (keys[1] && keys[3])
  }

  /** Opposite keys held means at least two keys held; three held keys always include a pair. */
  lemma OppositeKeysCount(keys: seq<bool>)
    requires |keys| == 4
    ensures OppositeKeys(keys) ==> CountTrue(keys) >= 2
    ensures CountTrue(keys) >= 3 ==> OppositeKeys(keys)
  {
    assert keys == [keys[0], keys[1], keys[2], keys[3]];
    assert keys[..3][..2][..1] == [keys[0]];
    assert keys[..3][..2] == [keys[0], keys[1]];
    assert keys[..3] == [keys[0], keys[1], keys[2]];
  }

  class InputHandler {
    const keys: array<bool>
    const previousKeys: array<bool>
    ghost var callbackRuns: nat

    ghost predicate Valid()
      reads this
    {
      keys.Length == 4 && previousKeys.Length == 4 && keys != previousKeys
    }

    /** All keys start up. */
    constructor ()
      ensures Valid() && fresh(keys) && fresh(previousKeys)
      ensures keys[..] == [false, false, false, false]
      ensures previousKeys[..] == [false, false, false, false]
      ensures callbackRuns == 0
    {
      keys := new bool[4](_ => false);
      previousKeys := new bool[4](_ => false);
      callbackRuns := 0;
    }

    method KeyPressed(keyCode: int)
      requires Valid()
      modifies this, keys, previousKeys
      ensures Valid()
      ensures previousKeys[..] == old(keys[..])
      ensures keys[..] == KeyUpdate(old(keys[..]), keyCode, true)
      ensures callbackRuns == old(callbackRuns) + 1
    {
      CopyKeys();
      UpdateKey(keyCode, true);
    }

    method KeyReleased(keyCode: int)
      requires Valid()
      modifies this, keys, previousKeys
      ensures Valid()
      ensures previousKeys[..] == old(keys[..])
      ensures keys[..] == KeyUpdate(old(keys[..]), keyCode, false)
      ensures callbackRuns == old(callbackRuns) + 1
    {
      CopyKeys();
      UpdateKey(keyCode, false);
    }

    /** `System.arraycopy(keys, 0, previousKeys, 0, 4)`. */
    method CopyKeys()
      requires Valid()
      modifies previousKeys
      ensures previousKeys[..] == keys[..]
    {
      forall i | 0 <= i < 4 {
        previousKeys[i] := keys[i];
      }
    }

    method UpdateKey(keyCode: int, pressed: bool)
      requires Valid()
      modifies this, keys
      ensures keys[..] == KeyUpdate(old(keys[..]), keyCode, pressed)
      ensures callbackRuns == old(callbackRuns) + 1
    {
      var slot := KeySlot(keyCode);
      if slot.Some? {
        keys[slot.value] := pressed;
      }
      callbackRuns := callbackRuns + 1;
    }

    /** `isKeyPressed`: a held key counts among the pressed keys. */
    function IsKeyPressed(index: int): (r: bool)
      requires Valid() && 0 <= index < 4
      reads this, keys
      ensures r ==> CountTrue(keys[..]) >= 1
      ensures !r ==> CountTrue(keys[..]) <= 3
    {
      assert keys[..][index] == keys[index];
      keys[index]
    }

    /** `hasOppositeKeysPressed`: opposite keys are at least two held keys; three always include a pair. */
    function HasOppositeKeysPressed(): (r: bool)
      requires Valid()
      reads this, keys
      ensures r ==> CountTrue(keys[..]) >= 2
      ensures CountTrue(keys[..]) >= 3 ==> r
    {
      OppositeKeysCount(keys[..]);
      OppositeKeys(keys[..])
    }

    method GetNumberOfKeysPressed() returns (count: int)
      requires Valid()
      ensures count == CountTrue(keys[..])
      ensures 0 <= count <= 4
    {
      count := 0;
      var i := 0;
      while i < keys.Length
        invariant 0 <= i <= keys.Length
        invariant count == CountTrue(keys[..i])
      {
        assert keys[..i + 1][..i] == keys[..i];
        if keys[i] {
          count := count + 1;
        }
        i := i + 1;
      }
      assert keys[..i] == keys[..];
    }
  }
}
