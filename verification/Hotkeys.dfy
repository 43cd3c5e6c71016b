/** Hotkey specifications: the parser's normal form, its scan for a trigger suffix, and display. */
module Hotkeys {
  datatype Trigger = F9 | F10 | F12 | Pause | ScrollLock | Insert | Menu

  datatype Hotkey = Hotkey(shift: bool, ctrl: bool, alt: bool, trigger: Trigger)

  datatype ParseResult = Parsed(hotkey: Hotkey) | EmptyText | UnsupportedTrigger | UnsupportedModifier

  datatype Modifiers = NoModifiers | Modifiers(shift: bool, ctrl: bool, alt: bool)

  /** The Unicode White_Space characters, which `trim` removes. */
  predicate IsSpace(c: char) {
    || '\t' <= c <= '\r' || c == ' ' || c == '\U{85}' || c == '\U{A0}' || c == '\U{1680}'
    || '\U{2000}' <= c <= '\U{200A}' || c == '\U{2028}' || c == '\U{2029}' || c == '\U{202F}'
    || c == '\U{205F}' || c == '\U{3000}'
  }

  predicate IsSeparator(c: char) {
    c == '+' || c == '_' || c == '-' || c == ' '
  }

  function TrimStart(s: string): string {
    if s != [] && IsSpace(s[0]) then TrimStart(s[1..]) else s
  }

  function TrimEnd(s: string): string {
    if s != [] && IsSpace(s[|s| - 1]) then TrimEnd(s[..|s| - 1]) else s
  }

  function Trim(s: string): string {
    TrimEnd(TrimStart(s))
  }

  function LowerChar(c: char): char {
    if 'A' <= c <= 'Z' then c - 'A' + 'a' else c
  }

  /** `to_ascii_lowercase` and then the separator filter. */
  function Squeeze(s: string): string {
    if s == [] then []
    else (if IsSeparator(s[0]) then [] else [LowerChar(s[0])]) + Squeeze(s[1..])
  }

  function Compact(s: string): string {
    Squeeze(Trim(s))
  }

  function Alias(t: Trigger): string {
    match t
    case F9 => "f9"
    case F10 => "f10"
    case F12 => "f12"
    case Pause => "pause"
    case ScrollLock => "scrolllock"
    case Insert => "insert"
    case Menu => "menu"
  }

  function ConfigValue(t: Trigger): string {
    match t
    case ScrollLock => "scroll_lock"
    case _ => Alias(t)
  }

  function ShortLabelOf(t: Trigger): string {
    match t
    case F9 => "F9"
    case F10 => "F10"
    case F12 => "F12"
    case Pause => "Pause"
    case ScrollLock => "ScrollLock"
    case Insert => "Insert"
    case Menu => "Menu"
  }

  predicate EndsWith(s: string, suffix: string) {
    |suffix| <= |s| && s[|s| - |suffix|..] == suffix
  }

  const SCAN: seq<Trigger> := [ScrollLock, Insert, Pause, Menu, F10, F12, F9]

  datatype Suffix = NoTrigger | Found(trigger: Trigger, prefix: string)

  /** `from_compact_suffix`: the first trigger of the scan order whose alias ends the text. */
  function FindSuffix(s: string, scan: seq<Trigger>): Suffix {
    if scan == [] then NoTrigger
    else if EndsWith(s, Alias(scan[0])) then Found(scan[0], s[..|s| - |Alias(scan[0])|])
    else FindSuffix(s, scan[1..])
  }

  /** `from_compact_prefix` */
  function FromPrefix(prefix: string): Modifiers {
    if prefix == "" then Modifiers(false, false, false)
    else if prefix == "shift" then Modifiers(true, false, false)
    else if prefix == "ctrl" then Modifiers(false, true, false)
    else if prefix == "alt" then Modifiers(false, false, true)
    else if prefix == "shiftctrl" then Modifiers(true, true, false)
    else if prefix == "shiftalt" then Modifiers(true, false, true)
    else if prefix == "ctrlalt" then Modifiers(false, true, true)
    else if prefix == "shiftctrlalt" then Modifiers(true, true, true)
    else NoModifiers
  }

  function Parse(s: string): ParseResult {
    if Trim(s) == [] then EmptyText
    else match FindSuffix(Compact(s), SCAN)
      case NoTrigger => UnsupportedTrigger
      case Found(trigger, prefix) =>
        match FromPrefix(prefix)
        case NoModifiers => UnsupportedModifier
        case Modifiers(shift, ctrl, alt) => Parsed(Hotkey(shift, ctrl, alt, trigger))
  }

  function Word(flag: bool, word: string): string {
    if flag then word else ""
  }

  /** The modifier word of a hotkey in the parser's order. */
  function ModifierWord(h: Hotkey): string {
    Word(h.shift, "shift") + Word(h.ctrl, "ctrl") + Word(h.alt, "alt")
  }

  /** `Display` and `config_value`. */
  function Display(h: Hotkey): string {
    Word(h.shift, "shift+") + Word(h.ctrl, "ctrl+") + Word(h.alt, "alt+") + ConfigValue(h.trigger)
  }

  /** `short_label`, which puts Shift last. */
  function ShortLabel(h: Hotkey): string {
    Word(h.ctrl, "Ctrl+") + Word(h.alt, "Alt+") + Word(h.shift, "Shift+") + ShortLabelOf(h.trigger)
  }

  // ----- the scan is unambiguous -----

  function LastChar(t: Trigger): char {
    match t
    case F9 => '9'
    case F10 => '0'
    case F12 => '2'
    case Pause => 'e'
    case ScrollLock => 'k'
    case Insert => 't'
    case Menu => 'u'
  }

  /** No two aliases can end the same text, because no two end in the same character. */
  lemma OneSuffix(s: string, t: Trigger, u: Trigger)
    requires EndsWith(s, Alias(t)) && EndsWith(s, Alias(u))
    ensures t == u
  {
    assert Alias(t)[|Alias(t)| - 1] == LastChar(t) && Alias(u)[|Alias(u)| - 1] == LastChar(u);
    assert s[|s| - |Alias(t)|..][|Alias(t)| - 1] == s[|s| - 1] == s[|s| - |Alias(u)|..][|Alias(u)| - 1];
  }

  /** So the first match of the scan is the only one: the scan finds t exactly when t's alias ends the text. */
  lemma {:induction false} ScanFindsIff(s: string, scan: seq<Trigger>, t: Trigger)
    requires t in scan
    ensures FindSuffix(s, scan) == (if EndsWith(s, Alias(t)) then Found(t, s[..|s| - |Alias(t)|])
                                    else FindSuffix(s, scan))
    ensures FindSuffix(s, scan).Found? && FindSuffix(s, scan).trigger == t <==> EndsWith(s, Alias(t))
    decreases |scan|
  {
    if EndsWith(s, Alias(scan[0])) {
      if EndsWith(s, Alias(t)) {
        OneSuffix(s, t, scan[0]);
      }
    } else {
      if t != scan[0] {
        ScanFindsIff(s, scan[1..], t);
      } else if FindSuffix(s, scan).Found? {
        FoundEnds(s, scan[1..]);
      }
    }
  }

  lemma {:induction false} FoundEnds(s: string, scan: seq<Trigger>)
    ensures FindSuffix(s, scan).Found? ==> EndsWith(s, Alias(FindSuffix(s, scan).trigger))
    decreases |scan|
  {
    if scan != [] && !EndsWith(s, Alias(scan[0])) {
      FoundEnds(s, scan[1..]);
    }
  }

  /** The eight modifier words, spelled out. */
  function SpelledOut(shift: bool, ctrl: bool, alt: bool): string {
    if shift then
      if ctrl then if alt then "shiftctrlalt" else "shiftctrl"
      else if alt then "shiftalt" else "shift"
    else if ctrl then if alt then "ctrlalt" else "ctrl"
    else if alt then "alt" else ""
  }

  lemma WordSpelledOut(h: Hotkey)
    ensures ModifierWord(h) == SpelledOut(h.shift, h.ctrl, h.alt)
  {
  }

  /** `from_compact_prefix` inverts the modifier word. */
  lemma PrefixIff(prefix: string, h: Hotkey)
    ensures FromPrefix(prefix) == Modifiers(h.shift, h.ctrl, h.alt) <==> prefix == ModifierWord(h)
  {
    WordSpelledOut(h);
    hide ModifierWord;
    // the eight words have eight different lengths
    var n := |SpelledOut(h.shift, h.ctrl, h.alt)|;
    assert n == (if h.shift then 5 else 0) + (if h.ctrl then 4 else 0) + (if h.alt then 3 else 0);
  }

  lemma CompactOfBlank(s: string)
    requires Compact(s) != []
    ensures Trim(s) != []
  {
  }

  lemma AliasNotEmpty(t: Trigger)
    ensures Alias(t) != []
  {
  }

  lemma ScanIsComplete(t: Trigger)
    ensures t in SCAN
  {
    assert t == SCAN[0] || t == SCAN[1] || t == SCAN[2] || t == SCAN[3] || t == SCAN[4] || t == SCAN[5] || t == SCAN[6];
  }

  /** The parser accepts a text as h exactly when its trimmed, lower-cased, separator-free form is
      h's modifier word followed by h's trigger alias. */
  lemma ParseIff(s: string, h: Hotkey)
    ensures Parse(s) == Parsed(h) <==> Compact(s) == ModifierWord(h) + Alias(h.trigger)
  {
    hide Alias, ModifierWord, FromPrefix, Compact, Trim, FindSuffix;
    var c := Compact(s);
    var n := |Alias(h.trigger)|;
    AliasNotEmpty(h.trigger);
    ScanIsComplete(h.trigger);
    ScanFindsIff(c, SCAN, h.trigger);
    if EndsWith(c, Alias(h.trigger)) {
      var prefix := c[..|c| - n];
      PrefixIff(prefix, h);
      CompactOfBlank(s);
      assert c == prefix + Alias(h.trigger);
      assert c == ModifierWord(h) + Alias(h.trigger) ==> prefix == ModifierWord(h);
    } else {
      assert (ModifierWord(h) + Alias(h.trigger))[|ModifierWord(h)|..] == Alias(h.trigger);
    }
  }

  lemma {:induction false} TrimStartBlankIff(s: string)
    ensures TrimStart(s) == [] <==> forall i :: 0 <= i < |s| ==> IsSpace(s[i])
    decreases |s|
  {
    if s != [] && IsSpace(s[0]) {
      TrimStartBlankIff(s[1..]);
      assert forall i :: 1 <= i < |s| ==> s[i] == s[1..][i - 1];
    }
  }

  lemma {:induction false} TrimEndBlankIff(s: string)
    ensures TrimEnd(s) == [] <==> forall i :: 0 <= i < |s| ==> IsSpace(s[i])
    decreases |s|
  {
    if s != [] && IsSpace(s[|s| - 1]) {
      TrimEndBlankIff(s[..|s| - 1]);
      assert forall i :: 0 <= i < |s| - 1 ==> s[i] == s[..|s| - 1][i];
    }
  }

  lemma {:induction false} TrimStartHead(s: string)
    ensures TrimStart(s) != [] ==> !IsSpace(TrimStart(s)[0])
    decreases |s|
  {
    if s != [] && IsSpace(s[0]) {
      TrimStartHead(s[1..]);
    }
  }

  /** Only blank texts are empty, and another text is rejected for its trigger exactly when no alias
      ends its compact form. */
  lemma RejectionIff(s: string)
    ensures Parse(s) == EmptyText <==> forall i :: 0 <= i < |s| ==> IsSpace(s[i])
    ensures Parse(s) == UnsupportedTrigger <==> Trim(s) != [] && forall t: Trigger :: !EndsWith(Compact(s), Alias(t))
  {
    TrimStartBlankIff(s);
    TrimStartHead(s);
    TrimEndBlankIff(TrimStart(s));
    hide Alias, Compact, FromPrefix, TrimStart, TrimEnd, FindSuffix;
    var c := Compact(s);
    forall t: Trigger ensures EndsWith(c, Alias(t)) ==> FindSuffix(c, SCAN).Found? {
      ScanIsComplete(t);
      ScanFindsIff(c, SCAN, t);
    }
    FoundEnds(c, SCAN);
  }

  // ----- display, case and separators -----

  lemma {:induction false} SqueezeConcat(s: string, t: string)
    ensures Squeeze(s + t) == Squeeze(s) + Squeeze(t)
    decreases |s|
  {
    if s == [] {
      assert s + t == t;
    } else {
      assert (s + t)[0] == s[0] && (s + t)[1..] == s[1..] + t;
      SqueezeConcat(s[1..], t);
    }
  }

  /** Trimming leaves a text alone whose ends are not white space. */
  lemma TrimIdle(s: string)
    requires s != [] && !IsSpace(s[0]) && !IsSpace(s[|s| - 1])
    ensures Trim(s) == s
  {
  }

  lemma {:induction false} SqueezeLowerWord(w: string)
    requires forall i :: 0 <= i < |w| ==> ('a' <= w[i] <= 'z' || '0' <= w[i] <= '9')
    ensures Squeeze(w) == w
    decreases |w|
  {
    if w != [] {
      SqueezeLowerWord(w[1..]);
    }
  }

  lemma SqueezeWithPlus(flag: bool, word: string)
    requires forall i :: 0 <= i < |word| ==> 'a' <= word[i] <= 'z'
    ensures Squeeze(Word(flag, word + "+")) == Word(flag, word)
  {
    SqueezeConcat(word, "+");
    SqueezeLowerWord(word);
    assert Squeeze("+") == [] + Squeeze("+"[1..]);
  }

  lemma AliasIsPlain(t: Trigger)
    ensures forall i :: 0 <= i < |Alias(t)| ==> ('a' <= Alias(t)[i] <= 'z' || '0' <= Alias(t)[i] <= '9')
    ensures forall i :: 0 <= i < |Alias(t)| ==> !IsSpace(Alias(t)[i])
  {
  }

  lemma SqueezeSeparator(c: char)
    requires IsSeparator(c)
    ensures Squeeze([c]) == []
  {
    assert [c][1..] == [];
  }

  lemma SqueezeCapital(c: char)
    requires !IsSeparator(c)
    ensures Squeeze([c]) == [LowerChar(c)]
  {
    assert [c][1..] == [];
  }

  lemma SqueezeScrollLock()
    ensures Squeeze("scroll_lock") == "scrolllock"
  {
    hide Squeeze;
    SqueezeLowerWord("scroll");
    SqueezeLowerWord("lock");
    SqueezeSeparator('_');
    SqueezeConcat("scroll", "_");
    SqueezeConcat("scroll" + "_", "lock");
    assert "scroll" + "_" + "lock" == "scroll_lock";
    assert "scroll" + [] + "lock" == "scrolllock";
  }

  lemma SqueezeConfigValue(t: Trigger)
    ensures Squeeze(ConfigValue(t)) == Alias(t)
  {
    hide Squeeze;
    if t == ScrollLock {
      SqueezeScrollLock();
    } else {
      AliasIsPlain(t);
      SqueezeLowerWord(Alias(t));
    }
  }

  /** The ends of a displayed hotkey are not white space. */
  lemma DisplayEnds(h: Hotkey)
    ensures Trim(Display(h)) == Display(h)
  {
    var d, v := Display(h), ConfigValue(h.trigger);
    assert v[|v| - 1] == LastChar(h.trigger) == d[|d| - 1];
    assert d[0] == if h.shift then 's' else if h.ctrl then 'c' else if h.alt then 'a' else v[0];
    TrimIdle(d);
  }

  /** Parsing undoes display. */
  lemma ParseUndoesDisplay(h: Hotkey)
    ensures Parse(Display(h)) == Parsed(h)
  {
    DisplayEnds(h);
    hide Squeeze, Alias, ConfigValue, Trim, Parse;
    var a, b, c, d := Word(h.shift, "shift" + "+"), Word(h.ctrl, "ctrl" + "+"), Word(h.alt, "alt" + "+"),
        ConfigValue(h.trigger);
    assert a == Word(h.shift, "shift+") && b == Word(h.ctrl, "ctrl+") && c == Word(h.alt, "alt+");
    SqueezeWithPlus(h.shift, "shift");
    SqueezeWithPlus(h.ctrl, "ctrl");
    SqueezeWithPlus(h.alt, "alt");
    SqueezeConfigValue(h.trigger);
    SqueezeConcat(a + b + c, d);
    SqueezeConcat(a + b, c);
    SqueezeConcat(a, b);
    ParseIff(Display(h), h);
  }

  /** A text whose only white space is the blank. */
  predicate Clean(s: string) {
    forall i :: 0 <= i < |s| && IsSpace(s[i]) ==> s[i] == ' '
  }

  lemma {:induction false} TrimStartKeepsSqueeze(s: string)
    requires Clean(s)
    ensures Clean(TrimStart(s)) && Squeeze(TrimStart(s)) == Squeeze(s)
    decreases |s|
  {
    if s != [] && IsSpace(s[0]) {
      TrimStartKeepsSqueeze(s[1..]);
    }
  }

  lemma {:induction false} TrimEndKeepsSqueeze(s: string)
    requires Clean(s)
    ensures Squeeze(TrimEnd(s)) == Squeeze(s)
    decreases |s|
  {
    if s != [] && IsSpace(s[|s| - 1]) {
      TrimEndKeepsSqueeze(s[..|s| - 1]);
      assert s == s[..|s| - 1] + [s[|s| - 1]];
      SqueezeConcat(s[..|s| - 1], [' ']);
      assert Squeeze([' ']) == [] + Squeeze([' '][1..]);
    }
  }

  predicate NoSpace(s: string) {
    forall i :: 0 <= i < |s| ==> !IsSpace(s[i])
  }

  lemma CleanCons(c: char, rest: string)
    ensures Clean([c] + rest) <==> (IsSpace(c) ==> c == ' ') && Clean(rest)
  {
    hide IsSpace;
    var s := [c] + rest;
    assert s[0] == c;
    forall i | 0 <= i < |rest| ensures s[i + 1] == rest[i] {}
    forall i | 1 <= i < |s| ensures s[i] == rest[i - 1] {}
  }

  lemma NoSpaceCons(c: char, rest: string)
    ensures NoSpace([c] + rest) <==> !IsSpace(c) && NoSpace(rest)
  {
    hide IsSpace;
    var s := [c] + rest;
    assert s[0] == c;
    forall i | 0 <= i < |rest| ensures s[i + 1] == rest[i] {}
    forall i | 1 <= i < |s| ensures s[i] == rest[i - 1] {}
  }

  /** Of the separators only the blank is white space; of the other white space none is changed in case. */
  lemma SpaceAndCase(c: char)
    ensures IsSeparator(c) ==> (IsSpace(c) ==> c == ' ')
    ensures !IsSeparator(c) ==> c != ' ' && (IsSpace(LowerChar(c)) <==> IsSpace(c))
  {
  }

  /** Squeezing removes the blank and keeps every other white space. */
  lemma {:induction false} SqueezedSpaces(s: string)
    ensures Clean(s) <==> NoSpace(Squeeze(s))
    decreases |s|
  {
    if s != [] {
      var c, rest := s[0], s[1..];
      SqueezedSpaces(rest);
      SpaceAndCase(c);
      assert s == [c] + rest;
      CleanCons(c, rest);
      NoSpaceCons(LowerChar(c), Squeeze(rest));
      hide IsSpace, IsSeparator, LowerChar, Clean, NoSpace;
      assert Squeeze(s) == if IsSeparator(c) then Squeeze(rest) else [LowerChar(c)] + Squeeze(rest);
    }
  }

  predicate Plain(s: string) {
    forall i :: 0 <= i < |s| ==> 'a' <= s[i] <= 'z' || '0' <= s[i] <= '9'
  }

  lemma PlainIsNoSpace(s: string)
    requires Plain(s)
    ensures NoSpace(s)
  {
    forall i | 0 <= i < |s| ensures !IsSpace(s[i]) {
      LetterIsNoSpace(s[i]);
    }
  }

  lemma LetterIsNoSpace(c: char)
    requires 'a' <= c <= 'z' || '0' <= c <= '9'
    ensures !IsSpace(c)
  {
  }

  lemma PlainConcat(a: string, b: string)
    requires Plain(a) && Plain(b)
    ensures Plain(a + b)
  {
  }

  lemma ModifierWordIsPlain(h: Hotkey)
    ensures Plain(ModifierWord(h))
  {
    PlainConcat(Word(h.shift, "shift"), Word(h.ctrl, "ctrl"));
    PlainConcat(Word(h.shift, "shift") + Word(h.ctrl, "ctrl"), Word(h.alt, "alt"));
  }

  lemma AcceptedIsPlain(h: Hotkey)
    ensures var w := ModifierWord(h) + Alias(h.trigger); w != [] && Squeeze(w) == w && NoSpace(w)
  {
    AliasIsPlain(h.trigger);
    AliasNotEmpty(h.trigger);
    hide ModifierWord, Alias, Squeeze, IsSpace;
    ModifierWordIsPlain(h);
    PlainConcat(ModifierWord(h), Alias(h.trigger));
    PlainIsNoSpace(ModifierWord(h) + Alias(h.trigger));
    SqueezeLowerWord(ModifierWord(h) + Alias(h.trigger));
  }

  /** Apart from the trimming, acceptance is a matter of the squeezed text: it is h's words exactly when the text
      is accepted as h and has no white space but the blank. */
  lemma CleanAcceptedIff(s: string, h: Hotkey)
    ensures Squeeze(s) == ModifierWord(h) + Alias(h.trigger) <==> Parse(s) == Parsed(h) && Clean(s)
  {
    hide Parse, ModifierWord, Alias;
    AcceptedIsPlain(h);
    SqueezedSpaces(s);
    ParseIff(s, h);
    if Clean(s) {
      TrimStartKeepsSqueeze(s);
      TrimEndKeepsSqueeze(TrimStart(s));
    }
  }

  /** So parsing ignores case and separators: of two texts equal up to these, both or neither are accepted
      without exotic white space. */
  lemma IgnoresCaseAndSeparators(s: string, t: string, h: Hotkey)
    requires Squeeze(s) == Squeeze(t)
    ensures Clean(s) <==> Clean(t)
    ensures Parse(s) == Parsed(h) && Clean(s) <==> Parse(t) == Parsed(h) && Clean(t)
  {
    hide Parse;
    SqueezedSpaces(s);
    SqueezedSpaces(t);
    CleanAcceptedIff(s, h);
    CleanAcceptedIff(t, h);
  }

  /** Equal up to the case of ASCII letters. */
  predicate SameLetter(a: char, b: char) {
    || a == b
    || ('a' <= a <= 'z' && b as int == a as int - 32)
    || ('A' <= a <= 'Z' && b as int == a as int + 32)
  }

  /** Texts that are equal up to case have the same squeezed form. */
  lemma {:induction false} CaseIgnored(s: string, t: string)
    requires |s| == |t| && forall i :: 0 <= i < |s| ==> SameLetter(s[i], t[i])
    ensures Squeeze(s) == Squeeze(t)
    decreases |s|
  {
    if s != [] {
      assert SameLetter(s[0], t[0]);
      assert LowerChar(s[0]) == LowerChar(t[0]) && IsSeparator(s[0]) == IsSeparator(t[0]);
      CaseIgnored(s[1..], t[1..]);
    }
  }

  /** The words of a hotkey, each modifier followed by `c`. */
  function Joined(h: Hotkey, c: char): string {
    Word(h.shift, "shift" + [c]) + Word(h.ctrl, "ctrl" + [c]) + Word(h.alt, "alt" + [c]) + Alias(h.trigger)
  }

  lemma SqueezeJoint(flag: bool, word: string, c: char)
    requires Plain(word)
    ensures Squeeze(Word(flag, word + [c])) == Word(flag, word + if IsSeparator(c) then [] else [LowerChar(c)])
  {
    SqueezeConcat(word, [c]);
    SqueezeLowerWord(word);
    if IsSeparator(c) {
      SqueezeSeparator(c);
    } else {
      SqueezeCapital(c);
    }
  }

  lemma JoinedEnds(h: Hotkey, c: char)
    ensures Trim(Joined(h, c)) == Joined(h, c)
  {
    var d, v := Joined(h, c), Alias(h.trigger);
    assert v[|v| - 1] == LastChar(h.trigger) == d[|d| - 1];
    assert d[0] == if h.shift then 's' else if h.ctrl then 'c' else if h.alt then 'a' else v[0];
    TrimIdle(d);
  }

  lemma JoinedCompact(h: Hotkey, c: char)
    ensures var gap := if IsSeparator(c) then [] else [LowerChar(c)];
            Compact(Joined(h, c)) ==
            Word(h.shift, "shift" + gap) + Word(h.ctrl, "ctrl" + gap) + Word(h.alt, "alt" + gap) + Alias(h.trigger)
  {
    JoinedEnds(h, c);
    AliasIsPlain(h.trigger);
    hide Squeeze, Alias, Trim, IsSeparator, LowerChar;
    var x, y, z := Word(h.shift, "shift" + [c]), Word(h.ctrl, "ctrl" + [c]), Word(h.alt, "alt" + [c]);
    SqueezeJoint(h.shift, "shift", c);
    SqueezeJoint(h.ctrl, "ctrl", c);
    SqueezeJoint(h.alt, "alt", c);
    SqueezeLowerWord(Alias(h.trigger));
    SqueezeConcat(x + y + z, Alias(h.trigger));
    SqueezeConcat(x + y, z);
    SqueezeConcat(x, y);
  }

  /** Plus, underscore, hyphen and blank join the words of a hotkey, and no other character does. */
  lemma JoinedParsesIff(h: Hotkey, c: char)
    requires h.shift || h.ctrl || h.alt
    ensures Parse(Joined(h, c)) == Parsed(h) <==> c in {'+', '_', '-', ' '}
  {
    JoinedCompact(h, c);
    ParseIff(Joined(h, c), h);
    hide Parse, Compact, Joined, Alias;
    var gap := if IsSeparator(c) then [] else [LowerChar(c)];
    var word := Word(h.shift, "shift" + gap) + Word(h.ctrl, "ctrl" + gap) + Word(h.alt, "alt" + gap);
    if IsSeparator(c) {
      assert "shift" + gap == "shift" && "ctrl" + gap == "ctrl" && "alt" + gap == "alt";
      assert word == ModifierWord(h);
    } else {
      assert |word| > |ModifierWord(h)|;
      assert |word + Alias(h.trigger)| > |ModifierWord(h) + Alias(h.trigger)|;
    }
  }

  // ----- exotic white space -----

  /** Nothing is left to squeeze. */
  predicate Squeezed(s: string) {
    forall i :: 0 <= i < |s| ==> !IsSeparator(s[i]) && LowerChar(s[i]) == s[i]
  }

  lemma {:induction false} SqueezeIdle(s: string)
    requires Squeezed(s)
    ensures Squeeze(s) == s
    decreases |s|
  {
    if s != [] {
      SqueezeIdle(s[1..]);
    }
  }

  lemma {:induction false} SqueezeIsSqueezed(s: string)
    ensures Squeezed(Squeeze(s))
    decreases |s|
  {
    if s != [] {
      SqueezeIsSqueezed(s[1..]);
      assert !IsSeparator(s[0]) ==> !IsSeparator(LowerChar(s[0])) && LowerChar(LowerChar(s[0])) == LowerChar(s[0]);
    }
  }

  lemma SqueezeTwice(s: string)
    ensures Squeeze(Squeeze(s)) == Squeeze(s)
  {
    SqueezeIsSqueezed(s);
    SqueezeIdle(Squeeze(s));
  }

  /** A squeezed text is accepted as h exactly when it is h's words between white space. */
  lemma SqueezedAcceptedIff(s: string, h: Hotkey)
    ensures Parse(Squeeze(s)) == Parsed(h) <==> Trim(Squeeze(s)) == ModifierWord(h) + Alias(h.trigger)
  {
    hide Parse, ModifierWord, Alias, Squeeze, TrimStart, TrimEnd, IsSeparator, LowerChar;
    var q := Squeeze(s);
    SqueezeIsSqueezed(s);
    var left := TrimStartSplits(q);
    var right := TrimEndSplits(TrimStart(q));
    var t := Trim(q);
    assert q == left + t + right;
    assert forall i :: 0 <= i < |t| ==> t[i] == q[|left| + i];
    SqueezeIdle(t);
    ParseIff(q, h);
  }

  ghost predicate AllSpace(s: string) {
    forall i :: 0 <= i < |s| ==> IsSpace(s[i])
  }

  lemma {:induction false} SqueezeOfSpaces(s: string)
    requires AllSpace(s)
    ensures AllSpace(Squeeze(s))
    decreases |s|
  {
    if s != [] {
      SqueezeOfSpaces(s[1..]);
    }
  }

  lemma {:induction false} TrimStartSplits(s: string) returns (left: string)
    ensures s == left + TrimStart(s) && AllSpace(left)
    decreases |s|
  {
    left := [];
    if s != [] && IsSpace(s[0]) {
      var rest := TrimStartSplits(s[1..]);
      left := [s[0]] + rest;
    }
  }

  lemma {:induction false} TrimEndSplits(s: string) returns (right: string)
    ensures s == TrimEnd(s) + right && AllSpace(right)
    decreases |s|
  {
    right := [];
    if s != [] && IsSpace(s[|s| - 1]) {
      var rest := TrimEndSplits(s[..|s| - 1]);
      right := rest + [s[|s| - 1]];
    }
  }

  lemma {:induction false} TrimStartDrops(left: string, s: string)
    requires AllSpace(left) && s != [] && !IsSpace(s[0])
    ensures TrimStart(left + s) == s
    decreases |left|
  {
    if left == [] {
      assert left + s == s;
    } else {
      assert (left + s)[1..] == left[1..] + s;
      TrimStartDrops(left[1..], s);
    }
  }

  lemma {:induction false} TrimEndDrops(s: string, right: string)
    requires AllSpace(right) && s != [] && !IsSpace(s[|s| - 1])
    ensures TrimEnd(s + right) == s
    decreases |right|
  {
    if right == [] {
      assert s + right == s;
    } else {
      var t := s + right;
      assert t[..|t| - 1] == s + right[..|right| - 1];
      TrimEndDrops(s, right[..|right| - 1]);
    }
  }

  /** A text accepted as h stays accepted when it is squeezed: the white space around it survives and is trimmed. */
  lemma SqueezedStaysAccepted(t: string, h: Hotkey)
    requires Parse(t) == Parsed(h)
    ensures Parse(Squeeze(t)) == Parsed(h)
  {
    hide Parse, ModifierWord, Alias, Squeeze, TrimStart, TrimEnd, IsSpace;
    var w := ModifierWord(h) + Alias(h.trigger);
    AcceptedIsPlain(h);
    ParseIff(t, h);
    var left := TrimStartSplits(t);
    var right := TrimEndSplits(TrimStart(t));
    SqueezeConcat(left, TrimStart(t));
    SqueezeConcat(Trim(t), right);
    SqueezeOfSpaces(left);
    SqueezeOfSpaces(right);
    TrimStartDrops(Squeeze(left), w + Squeeze(right));
    TrimEndDrops(w, Squeeze(right));
    assert Trim(Squeeze(t)) == w;
    ParseIff(Squeeze(t), h);
  }

  /** Separators shield white space from the trimming. */
  lemma ShieldedIsRejected(s: string, h: Hotkey)
    requires !Clean(s)
    ensures var t := "+" + Squeeze(s) + "+"; Squeeze(t) == Squeeze(s) && Parse(t) != Parsed(h)
  {
    hide Parse, ModifierWord, Alias, Squeeze, TrimStart, TrimEnd;
    var q := Squeeze(s);
    var t := "+" + q + "+";
    SqueezeConcat("+" + q, "+");
    SqueezeConcat("+", q);
    SqueezeSeparator('+');
    SqueezeTwice(s);
    TrimIdle(t);
    SqueezedSpaces(s);
    AcceptedIsPlain(h);
    ParseIff(t, h);
  }

  /** Case and separators can be changed without changing whether a text is accepted as h, exactly when the text
      has no white space but the blank, or its squeezed form is not h's words between white space. */
  lemma SeparatorsMatterIff(s: string, h: Hotkey)
    ensures (forall t | Squeeze(t) == Squeeze(s) :: Parse(t) == Parsed(h) <==> Parse(s) == Parsed(h)) <==>
            Clean(s) || Trim(Squeeze(s)) != ModifierWord(h) + Alias(h.trigger)
  {
    hide Parse, Squeeze, Trim, ModifierWord, Alias;
    SqueezedAcceptedIff(s, h);
    forall t | Squeeze(t) == Squeeze(s)
      ensures Clean(s) ==> (Parse(t) == Parsed(h) <==> Parse(s) == Parsed(h))
      ensures Parse(t) == Parsed(h) ==> Parse(Squeeze(s)) == Parsed(h)
    {
      IgnoresCaseAndSeparators(s, t, h);
      if Parse(t) == Parsed(h) {
        SqueezedStaysAccepted(t, h);
      }
    }
    SqueezeTwice(s);
    if !Clean(s) {
      ShieldedIsRejected(s, h);
    }
  }

  /** Other white space is not ignored once a separator shields it from trimming. */
  lemma TabIsNotIgnored()
    ensures Parse("\tf9") == Parsed(Hotkey(false, false, false, F9))
    ensures Parse("+\tf9") == UnsupportedModifier
  {
    TabTrimmed();
    TabShielded();
  }

  lemma TabTrimmed()
    ensures Parse("\tf9") == Parsed(Hotkey(false, false, false, F9))
  {
    var h := Hotkey(false, false, false, F9);
    assert "\tf9"[1..] == "f9";
    assert TrimStart("\tf9") == TrimStart("f9") == "f9" && TrimEnd("f9") == "f9";
    SqueezeLowerWord("f9");
    WordSpelledOut(h);
    hide Squeeze, Parse, ModifierWord;
    assert "" + "f9" == "f9";
    ParseIff("\tf9", h);
  }

  lemma TabShielded()
    ensures Parse("+\tf9") == UnsupportedModifier
  {
    hide Squeeze, Trim, FindSuffix;
    TrimIdle("+\tf9");
    SqueezeTabbed();
    ScanIsComplete(F9);
    ScanFindsIff("\tf9", SCAN, F9);
    assert "\tf9"[1..] == "f9" && "\tf9"[..1] == "\t";
  }

  lemma SqueezeTabbed()
    ensures Squeeze("+\tf9") == "\tf9"
  {
    hide Squeeze;
    SqueezeSeparator('+');
    SqueezeCapital('\t');
    SqueezeLowerWord("f9");
    SqueezeConcat("+", "\t");
    SqueezeConcat("+" + "\t", "f9");
    assert "+" + "\t" + "f9" == "+\tf9";
    assert [] + ['\t'] + "f9" == "\tf9";
  }

  lemma SqueezeShown(first: char, rest: string)
    requires !IsSeparator(first)
    requires forall i :: 0 <= i < |rest| ==> 'a' <= rest[i] <= 'z' || '0' <= rest[i] <= '9'
    ensures Squeeze([first] + rest) == [LowerChar(first)] + rest
  {
    SqueezeConcat([first], rest);
    SqueezeCapital(first);
    SqueezeLowerWord(rest);
  }

  /** A capitalised modifier with its plus squeezes to the parser's word. */
  lemma SqueezeShownWord(flag: bool, first: char, rest: string)
    requires 'A' <= first <= 'Z' && forall i :: 0 <= i < |rest| ==> 'a' <= rest[i] <= 'z'
    ensures Squeeze(Word(flag, [first] + rest + "+")) == Word(flag, [LowerChar(first)] + rest)
  {
    SqueezeConcat([first] + rest, "+");
    SqueezeShown(first, rest);
    SqueezeSeparator('+');
    var w := [LowerChar(first)] + rest;
    assert w + [] == w;
  }

  lemma SqueezeScrollLockShown()
    ensures Squeeze("ScrollLock") == "scrolllock"
  {
    hide Squeeze;
    SqueezeShown('S', "croll");
    SqueezeShown('L', "ock");
    SqueezeConcat(['S'] + "croll", ['L'] + "ock");
    assert ['S'] + "croll" + (['L'] + "ock") == "ScrollLock";
    assert ['s'] + "croll" + (['l'] + "ock") == "scrolllock";
  }

  lemma SqueezeShortLabel(t: Trigger)
    ensures Squeeze(ShortLabelOf(t)) == Alias(t)
  {
    hide Squeeze;
    if t == ScrollLock {
      SqueezeScrollLockShown();
    } else {
      var l, a := ShortLabelOf(t), Alias(t);
      AliasIsPlain(t);
      SqueezeShown(l[0], a[1..]);
      assert l == [l[0]] + a[1..] && a == [LowerChar(l[0])] + a[1..];
    }
  }

  /** The modifier word in the order of the short label. */
  function ShownWord(h: Hotkey): string {
    Word(h.ctrl, "ctrl") + Word(h.alt, "alt") + Word(h.shift, "shift")
  }

  lemma ShownWordIff(h: Hotkey)
    ensures ShownWord(h) == ModifierWord(h) <==> !(h.shift && (h.ctrl || h.alt))
  {
    WordSpelledOut(h);
    if h.shift && (h.ctrl || h.alt) {
      assert ShownWord(h)[0] == (if h.ctrl then 'c' else 'a') && ModifierWord(h)[0] == 's';
    }
  }

  lemma ShortLabelEnds(h: Hotkey)
    ensures Trim(ShortLabel(h)) == ShortLabel(h)
  {
    var d, v := ShortLabel(h), ShortLabelOf(h.trigger);
    assert v[|v| - 1] == LastChar(h.trigger) == d[|d| - 1];
    assert d[0] == if h.ctrl then 'C' else if h.alt then 'A' else if h.shift then 'S' else v[0];
    TrimIdle(d);
  }

  lemma ShortLabelCompact(h: Hotkey)
    ensures Compact(ShortLabel(h)) == ShownWord(h) + Alias(h.trigger)
  {
    ShortLabelEnds(h);
    hide Squeeze, Alias, ShortLabelOf, Trim;
    var a, b, c, d := Word(h.ctrl, ['C'] + "trl" + "+"), Word(h.alt, ['A'] + "lt" + "+"),
        Word(h.shift, ['S'] + "hift" + "+"), ShortLabelOf(h.trigger);
    assert a == Word(h.ctrl, "Ctrl+") && b == Word(h.alt, "Alt+") && c == Word(h.shift, "Shift+");
    SqueezeShownWord(h.ctrl, 'C', "trl");
    SqueezeShownWord(h.alt, 'A', "lt");
    SqueezeShownWord(h.shift, 'S', "hift");
    assert ['c'] + "trl" == "ctrl" && ['a'] + "lt" == "alt" && ['s'] + "hift" == "shift";
    SqueezeShortLabel(h.trigger);
    SqueezeConcat(a + b + c, d);
    SqueezeConcat(a + b, c);
    SqueezeConcat(a, b);
  }

  /** The short label, which puts Shift last, parses back exactly when Shift does not meet Ctrl or Alt. */
  lemma ShortLabelParsesIff(h: Hotkey)
    ensures Parse(ShortLabel(h)) == Parsed(h) <==> !(h.shift && (h.ctrl || h.alt))
  {
    hide Compact, Parse, ShownWord, ModifierWord, Alias, ShortLabel;
    ShortLabelCompact(h);
    ParseIff(ShortLabel(h), h);
    ShownWordIff(h);
    var n := |Compact(ShortLabel(h))| - |Alias(h.trigger)|;
    assert (ShownWord(h) + Alias(h.trigger))[..|ShownWord(h)|] == ShownWord(h);
    if ShownWord(h) + Alias(h.trigger) == ModifierWord(h) + Alias(h.trigger) {
      assert (ModifierWord(h) + Alias(h.trigger))[..|ModifierWord(h)|] == ModifierWord(h);
    }
  }
}
