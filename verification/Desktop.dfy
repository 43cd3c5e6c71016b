/**
 The desktop that receives the replayed keys: a text document, the keyboard layout
 group, the modifiers seen down and Caps Lock.  Which keys Caps Lock affects in which
 group is left open: it is the keymap, a parameter.
 */
module Desktop {
  import opened Keys

  /** `keymap(group, key)`: does Caps Lock change the level of this key in this group? */
  type Keymap = (nat, Key) -> bool

  /** A typed character, identified by its key, layout group and shift level. */
  datatype Glyph = Glyph(key: Key, group: nat, upper: bool)

  datatype Host = Host(
    doc: seq<Glyph>,
    group: nat,
    groups: nat,
    down: set<Key>,    // modifiers seen down
    caps: bool,
    chord: set<Key>)   // the configured layout-switch combination

  predicate WellFormed(h: Host, combo: Combo) {
    h.group < h.groups <= 255 && h.down <= MODIFIERS && h.chord == set k | k in ComboSequence(combo)
  }

  function NextGroup(h: Host): nat
    requires h.groups > 0
  {
    (h.group + 1) % h.groups
  }

  function Chop(doc: seq<Glyph>, n: nat): seq<Glyph> {
    if n <= |doc| then doc[..|doc| - n] else []
  }

  function Level(keymap: Keymap, h: Host, key: Key): bool {
    (h.down * SHIFTS != {}) != (h.caps && keymap(h.group, key))
  }

  function KeyDown(keymap: Keymap, h: Host, key: Key): Host {
    var down := if key in MODIFIERS then h.down + {key} else h.down;
    if h.down + {key} == h.chord && h.groups > 0 then h.(group := NextGroup(h), down := down)
    else if key in MODIFIERS then h.(down := down)
    else if key == CAPSLOCK then h.(caps := !h.caps)
    else if h.down - SHIFTS != {} then h                     // a shortcut types nothing
    else if key == BACKSPACE then h.(doc := Chop(h.doc, 1))
    else h.(doc := h.doc + [Glyph(key, h.group, Level(keymap, h, key))])
  }

  function KeyUp(h: Host, key: Key): Host {
    h.(down := h.down - {key})
  }

  function KeysUp(h: Host, keys: seq<Key>): Host {
    h.(down := h.down - set k | k in keys)
  }

  /** Press, with Shift if asked, and release. */
  function Tap(keymap: Keymap, h: Host, key: Key, shift: bool): Host {
    if shift then KeysUp(KeyDown(keymap, KeyDown(keymap, h, LEFTSHIFT), key), [LEFTSHIFT, key])
    else KeysUp(KeyDown(keymap, h, key), [key])
  }

  /** Press all keys of a combination in order, then release them. */
  function PressAll(keymap: Keymap, h: Host, keys: seq<Key>): Host {
    if keys == [] then h else KeyDown(keymap, PressAll(keymap, h, keys[..|keys| - 1]), keys[|keys| - 1])
  }

  lemma KeysUpNone(h: Host, keys: seq<Key>)
    ensures KeysUp(h, keys[|keys|..]) == h
  {
    assert h.down - (set k | k in keys[|keys|..]) == h.down;
  }

  lemma KeysUpOne(h: Host, key: Key, keys: seq<Key>)
    ensures KeyUp(KeysUp(h, keys), key) == KeysUp(h, [key] + keys)
  {
    assert h.down - (set k | k in keys) - {key} == h.down - (set k | k in [key] + keys);
  }

  /** With no modifier down, a text key types one character of the current group;
      its level is the emitted Shift, inverted where Caps Lock acts on the key. */
  lemma TapTypes(keymap: Keymap, h: Host, combo: Combo, key: Key, shift: bool)
    requires WellFormed(h, combo) && h.down == {} && IsTextKey(key)
    ensures Tap(keymap, h, key, shift) ==
            h.(doc := h.doc + [Glyph(key, h.group, shift != (h.caps && keymap(h.group, key)))])
  {
    ChordHasNoTextPrefix(combo, key);
    if shift {
      var s := KeyDown(keymap, h, LEFTSHIFT);
      assert h.down + {LEFTSHIFT} == {LEFTSHIFT};
      assert s == h.(down := {LEFTSHIFT}) && s.down * SHIFTS == {LEFTSHIFT} && s.down - SHIFTS == {};
      assert s.down + {key} == {LEFTSHIFT, key};
      assert s.down - (set k | k in [LEFTSHIFT, key]) == {};
    } else {
      assert h.down * SHIFTS == {} && h.down - SHIFTS == {} && h.down + {key} == {key};
    }
  }

  lemma TapErases(keymap: Keymap, h: Host, combo: Combo)
    requires WellFormed(h, combo) && h.down == {}
    ensures Tap(keymap, h, BACKSPACE, false) == h.(doc := Chop(h.doc, 1))
  {
    ChordHasNoTextPrefix(combo, BACKSPACE);
    assert h.down + {BACKSPACE} == {BACKSPACE} && h.down - SHIFTS == {};
  }

  lemma ChordHasNoTextPrefix(combo: Combo, key: Key)
    requires key !in MODIFIERS && key != CAPSLOCK
    ensures var chord := set k | k in ComboSequence(combo);
            chord != {key} && chord != {LEFTSHIFT} && chord != {LEFTSHIFT, key}
  {
    var keys := ComboSequence(combo);
    var chord := set k | k in keys;
    assert keys[0] in chord && keys[|keys| - 1] in chord;
  }

  lemma FirstChordKey(keymap: Keymap, h: Host, a: Key)
    requires h.down == {} && a in MODIFIERS && h.chord != {a}
    ensures KeyDown(keymap, h, a) == h.(down := {a})
  {
    assert h.down + {a} == {a};
  }

  lemma LastChordKey(keymap: Keymap, h: Host, a: Key, b: Key)
    requires h.groups > 0 && h.down == {a} && h.chord == {a, b}
    ensures KeysUp(KeyDown(keymap, h, b), [a, b]) == h.(group := NextGroup(h), down := {})
  {
    assert h.down + {b} == h.chord;
    var h2 := KeyDown(keymap, h, b);
    assert h2.down - (set k | k in [a, b]) == {};
  }

  lemma PairSwitches(keymap: Keymap, h: Host, a: Key, b: Key)
    requires h.down == {} && h.groups > 0 && a in MODIFIERS && a != b && h.chord == {a, b}
    ensures KeysUp(PressAll(keymap, h, [a, b]), [a, b]) == h.(group := NextGroup(h))
  {
    hide KeyDown;
    assert [a, b][..1] == [a] && [a][..0] == [];
    assert b in h.chord;
    FirstChordKey(keymap, h, a);
    assert PressAll(keymap, h, [a]) == KeyDown(keymap, PressAll(keymap, h, []), a);
    assert PressAll(keymap, h, [a, b]) == KeyDown(keymap, PressAll(keymap, h, [a]), b);
    LastChordKey(keymap, h.(down := {a}), a, b);
  }

  /** The configured combination switches the group once and types nothing. */
  lemma ChordSwitches(keymap: Keymap, h: Host, combo: Combo)
    requires WellFormed(h, combo) && h.down == {}
    ensures KeysUp(PressAll(keymap, h, ComboSequence(combo)), ComboSequence(combo)) == h.(group := NextGroup(h))
  {
    var keys := ComboSequence(combo);
    if combo == CapsLockCombo {
      assert [CAPSLOCK][..0] == [];
      assert h.chord == {CAPSLOCK} && h.down + {CAPSLOCK} == {CAPSLOCK};
      assert PressAll(keymap, h, [CAPSLOCK]) == KeyDown(keymap, PressAll(keymap, h, []), CAPSLOCK);
      assert h.down - (set k | k in [CAPSLOCK]) == {};
    } else {
      assert keys == [keys[0], keys[1]];
      assert h.chord == {keys[0], keys[1]};
      PairSwitches(keymap, h, keys[0], keys[1]);
    }
  }
}
