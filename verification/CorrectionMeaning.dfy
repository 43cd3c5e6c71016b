/** What a successful correction means: the document it leaves, and when every case is right. */
module CorrectionMeaning {
  import opened Keys
  import opened Desktop
  import opened Replay
  import opened Corrections

  /** The characters that the replay of `buffer` produces in `group`. */
  function Produced(keymap: Keymap, buffer: seq<Keystroke>, group: nat, caps: bool): seq<Glyph> {
    seq(|buffer|, i requires 0 <= i < |buffer| =>
      Glyph(buffer[i].key, group, ReplayShift(buffer[i], caps) != (caps && keymap(group, buffer[i].key))))
  }

  /** The characters the plan asks for: each stroke in its intended visible case. */
  function Intended(buffer: seq<Keystroke>, group: nat): seq<Glyph> {
    seq(|buffer|, i requires 0 <= i < |buffer| => Glyph(buffer[i].key, group, buffer[i].shift))
  }

  predicate TextBuffer(buffer: seq<Keystroke>) {
    forall i :: 0 <= i < |buffer| ==> IsTextKey(buffer[i].key)
  }

  /** The snapshot the replay was given describes the desktop. */
  predicate Snapshot(h: Host, m: ModifierState) {
    h.down == HeldSet(m) && h.caps == m.capsLock
  }

  /** The corrected document: `n` characters erased and `text` typed, in `group`, no modifier down. */
  function Corrected(h: Host, n: nat, text: seq<Glyph>, group: nat): Host {
    h.(doc := Chop(h.doc, n) + text, group := group, down := {})
  }

  lemma LiftsEverything(h: Host, m: ModifierState)
    requires h.down == HeldSet(m)
    ensures KeysUp(h, PressedModifierKeys(m)) == h.(down := {})
    ensures KeysUp(h, PressedUinputModifierKeys(m)) == h.(down := {})
  {
    assert h.down - (set k | k in PressedModifierKeys(m)) == {};
    assert h.down - (set k | k in PressedUinputModifierKeys(m)) == {};
  }

  lemma {:induction false} EraseChops(keymap: Keymap, h: Host, combo: Combo, n: nat)
    requires WellFormed(h, combo) && h.down == {}
    ensures EraseAll(keymap, h, n) == h.(doc := Chop(h.doc, n))
  {
    if n == 0 {
      assert Chop(h.doc, 0) == h.doc;
    } else {
      EraseChops(keymap, h, combo, n - 1);
      TapErases(keymap, h.(doc := Chop(h.doc, n - 1)), combo);
      assert Chop(Chop(h.doc, n - 1), 1) == Chop(h.doc, n);
    }
  }

  lemma {:induction false} TypeAppends(keymap: Keymap, h: Host, combo: Combo, buffer: seq<Keystroke>)
    requires WellFormed(h, combo) && h.down == {} && TextBuffer(buffer)
    ensures TypeAll(keymap, h, buffer, h.caps) == h.(doc := h.doc + Produced(keymap, buffer, h.group, h.caps))
    decreases |buffer|
  {
    hide Tap, KeyDown;
    if buffer == [] {
      assert h.doc + Produced(keymap, buffer, h.group, h.caps) == h.doc;
    } else {
      var n := |buffer| - 1;
      var init := Produced(keymap, buffer[..n], h.group, h.caps);
      TypeAppends(keymap, h, combo, buffer[..n]);
      TapTypes(keymap, h.(doc := h.doc + init), combo, buffer[n].key, ReplayShift(buffer[n], h.caps));
      assert Produced(keymap, buffer, h.group, h.caps) == init + [Produced(keymap, buffer, h.group, h.caps)[n]];
    }
  }

  lemma EraseThenType(keymap: Keymap, h: Host, combo: Combo, plan: Plan, g: nat)
    requires WellFormed(h, combo) && h.down == {} && TextBuffer(plan.buffer) && g < h.groups
    ensures TypeAll(keymap, EraseAll(keymap, h, Backspaces(plan)).(group := g), plan.buffer, h.caps) ==
            Corrected(h, Backspaces(plan), Produced(keymap, plan.buffer, g, h.caps), g)
  {
    EraseChops(keymap, h, combo, Backspaces(plan));
    TypeAppends(keymap, EraseAll(keymap, h, Backspaces(plan)).(group := g), combo, plan.buffer);
  }

  /** The group that a switch strategy leads to. */
  function GroupAfter(h: Host, how: SwitchOutcome): nat
    requires h.groups > 0
  {
    if how == NotNeeded || (how == AppliedX11 && h.groups == 1) then h.group else NextGroup(h)
  }

  lemma SwitchMoves(keymap: Keymap, h: Host, how: SwitchOutcome, combo: Combo)
    requires WellFormed(h, combo) && h.down == {}
    ensures Switch(keymap, h, how, combo) == h.(group := GroupAfter(h, how))
  {
    hide KeyDown, KeysUp;
    if how == AppliedUinput {
      ChordSwitches(keymap, h, combo);
    }
  }

  /** Every generic correction erases n + extra characters and types the n strokes in the group it switched to. */
  lemma GenericMeaning(keymap: Keymap, h: Host, plan: Plan, m: ModifierState, how: SwitchOutcome, combo: Combo)
    requires WellFormed(h, combo) && Snapshot(h, m) && TextBuffer(plan.buffer)
    ensures GenericResult(keymap, h, plan, m, how, combo) ==
            var text := Produced(keymap, plan.buffer, GroupAfter(h, how), h.caps);
            Corrected(h, |plan.buffer| + plan.extraBackspaces, text, GroupAfter(h, how))
  {
    hide KeysUp, PressedUinputModifierKeys, HeldSet, EraseAll, TypeAll, Switch, Produced;
    LiftsEverything(h, m);
    var lifted := h.(down := {});
    EraseChops(keymap, lifted, combo, Backspaces(plan));
    var erased := EraseAll(keymap, lifted, Backspaces(plan));
    SwitchMoves(keymap, erased, how, combo);
    EraseThenType(keymap, lifted, combo, plan, GroupAfter(h, how));
  }

  /** The Cinnamon correction does the same in its own order. */
  lemma CinnamonMeaning(keymap: Keymap, h: Host, plan: Plan, m: ModifierState, combo: Combo)
    requires WellFormed(h, combo) && Snapshot(h, m) && TextBuffer(plan.buffer) && h.groups == 2
    ensures CinnamonResult(keymap, h, plan, m) ==
            var text := Produced(keymap, plan.buffer, NextGroup(h), h.caps);
            Corrected(h, |plan.buffer| + plan.extraBackspaces, text, NextGroup(h))
  {
    var switched := h.(group := NextGroup(h));
    assert X11Switch(h) == switched;
    LiftsEverything(switched, m);
    EraseChops(keymap, switched.(down := {}), combo, Backspaces(plan));
    TypeAppends(keymap, EraseAll(keymap, switched.(down := {}), Backspaces(plan)), combo, plan.buffer);
  }

  /** With two groups the generic X11 order, the generic combination and the Cinnamon order
      leave the same document, layout and modifiers. */
  lemma StrategiesAgree(keymap: Keymap, h: Host, plan: Plan, m: ModifierState, combo: Combo)
    requires WellFormed(h, combo) && Snapshot(h, m) && TextBuffer(plan.buffer) && h.groups == 2
    ensures GenericResult(keymap, h, plan, m, AppliedX11, combo) == CinnamonResult(keymap, h, plan, m)
    ensures GenericResult(keymap, h, plan, m, AppliedUinput, combo) == CinnamonResult(keymap, h, plan, m)
  {
    GenericMeaning(keymap, h, plan, m, AppliedX11, combo);
    GenericMeaning(keymap, h, plan, m, AppliedUinput, combo);
    CinnamonMeaning(keymap, h, plan, m, combo);
  }

  /** Every character comes out in its intended case exactly when Caps Lock is off or acts, in the target
      group, on just those strokes' keys that the replay takes for letters. */
  lemma IntendedCaseIff(keymap: Keymap, buffer: seq<Keystroke>, group: nat, caps: bool)
    ensures Produced(keymap, buffer, group, caps) == Intended(buffer, group) <==>
            !caps || forall i :: 0 <= i < |buffer| ==> keymap(group, buffer[i].key) == IsCaseSensitive(buffer[i].key)
  {
    var p, q := Produced(keymap, buffer, group, caps), Intended(buffer, group);
    forall i | 0 <= i < |buffer|
      ensures p[i] == q[i] <==> !caps || keymap(group, buffer[i].key) == IsCaseSensitive(buffer[i].key)
    {
      var acts := keymap(group, buffer[i].key);
      assert p[i].upper == (ReplayShift(buffer[i], caps) != (caps && acts)) && q[i].upper == buffer[i].shift;
      assert p[i] == q[i] <==> p[i].upper == q[i].upper;
    }
    if p == q {
      assert forall i :: 0 <= i < |buffer| ==> p[i] == q[i];
    }
  }

  const SEMICOLON: Key := 39

  /** The keys from Q to P, A to L and Z to M, which are letters in both layouts. */
  const LATIN_LETTERS: set<Key> := {
    16, 17, 18, 19, 20, 21, 22, 23, 24, 25, 30, 31, 32, 33, 34, 35, 36, 37, 38, 44, 45, 46, 47, 48, 49, 50}

  /** Brackets, semicolon, apostrophe, grave, comma and dot: punctuation in the Latin layout, letters in the Russian. */
  const RUSSIAN_ONLY_LETTERS: set<Key> := {26, 27, 39, 40, 41, 51, 52}

  /** Layouts where Caps Lock acts on just the letters. */
  predicate LatinKeymap(group: nat, key: Key) {
    key in LATIN_LETTERS
  }

  predicate RussianKeymap(group: nat, key: Key) {
    key in LATIN_LETTERS || key in RUSSIAN_ONLY_LETTERS
  }

  /** The replay's letter table is that of the Russian layout; the Shift of every other key is the stroke's own. */
  lemma LettersAreRussian(stroke: Keystroke, capsLock: bool)
    ensures IsCaseSensitive(stroke.key) <==> RussianKeymap(0, stroke.key)
    ensures ReplayShift(stroke, capsLock) == (stroke.shift != (capsLock && RussianKeymap(0, stroke.key)))
  {
  }

  /** So into the Russian layout every text comes out in its intended case, under either state of Caps Lock. */
  lemma RussianCase(buffer: seq<Keystroke>, group: nat, caps: bool)
    ensures Produced(RussianKeymap, buffer, group, caps) == Intended(buffer, group)
  {
    forall i | 0 <= i < |buffer| ensures RussianKeymap(group, buffer[i].key) == IsCaseSensitive(buffer[i].key) {
      LettersAreRussian(buffer[i], caps);
    }
    IntendedCaseIff(RussianKeymap, buffer, group, caps);
  }

  /** Into the Latin layout a text does so exactly when Caps Lock is off or no stroke is one of the seven keys that are
      letters in the Russian layout only. */
  lemma LatinCaseIff(buffer: seq<Keystroke>, group: nat, caps: bool)
    ensures Produced(LatinKeymap, buffer, group, caps) == Intended(buffer, group) <==>
            !caps || forall i :: 0 <= i < |buffer| ==> buffer[i].key !in RUSSIAN_ONLY_LETTERS
  {
    forall i | 0 <= i < |buffer|
      ensures LatinKeymap(group, buffer[i].key) == IsCaseSensitive(buffer[i].key) <==>
              buffer[i].key !in RUSSIAN_ONLY_LETTERS
    {
      LettersAreRussian(buffer[i], caps);
    }
    IntendedCaseIff(LatinKeymap, buffer, group, caps);
  }

  /** The property fails for punctuation typed into a Latin layout under Caps Lock: ";" comes out as ":". */
  lemma PunctuationUnderCapsLock(group: nat)
    ensures Produced(LatinKeymap, [Keystroke(SEMICOLON, false)], group, true) == [Glyph(SEMICOLON, group, true)]
    ensures Intended([Keystroke(SEMICOLON, false)], group) == [Glyph(SEMICOLON, group, false)]
  {
    var stroke := Keystroke(SEMICOLON, false);
    assert ReplayShift(stroke, true) && !LatinKeymap(group, SEMICOLON);
  }
}
