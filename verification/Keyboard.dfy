/** The keyboard: the interrupt handler writes a ring that the reader empties, both with 8-bit indices. */
module Keyboard {
  import opened Bytes
  import opened Options
  import Terminal

  const KEY_LSHIFT: byte := 42
  const KEY_RSHIFT: byte := 54
  const KEY_CAPSLOCK: byte := 58
  const BUFFER_SIZE: nat := 1024
  const RING: nat := 256   // what 8-bit indices reach

  // Scan codes 0 to 58; the table is zero behind, but for the keypad's minus and plus.
  const LOWER_KEYS: string :=
    "\U{0}\U{1B}1234567890-=\U{8}\t" + "qwertyuiop" + "[]\n\U{0}" + "asdfghjkl" + ";'`\U{0}\\" + "zxcvbnm" + ",./\U{0}*\U{0} \U{0}"
  const UPPER_KEYS: string :=
    "\U{0}\U{1B}1234567890-=\U{8}\t" + "QWERTYUIOP" + "[]\n\U{0}" + "ASDFGHJKL" + ";'`\U{0}\\" + "ZXCVBNM" + ",./\U{0}*\U{0} \U{0}"

  function KeyChar(keys: string, key: byte): byte {
    if key < |keys| then keys[key] as int % 256
    else if key == 74 then '-' as int
    else if key == 78 then '+' as int
    else 0
  }

  datatype Kbd = Kbd(caps: bool, capslock: bool, buffer: seq<byte>, writeIndex: nat, readIndex: nat) {
    predicate Ok() {
      |buffer| == BUFFER_SIZE && writeIndex < RING && readIndex < RING
    }
  }

  /** (index + 1) & (KEYBOARD_BUFFER_SIZE - 1), stored in eight bits. */
  function Advance(index: nat): (r: nat)
    ensures r < RING
  {
    (index + 1) % BUFFER_SIZE % RING
  }

  predicate IsShift(key: byte) {
    key == KEY_LSHIFT || key == KEY_RSHIFT
  }

  /** keyboard_handler when the controller has a byte. */
  function Handle(k: Kbd, keycode: byte): (k': Kbd)
    requires k.Ok()
    ensures k'.Ok()
  {
    var release, key := keycode >= 128, keycode % 128;
    if key == KEY_CAPSLOCK then (if release then k else k.(capslock := !k.capslock))
    else if IsShift(key) then k.(caps := !release)
    else if release then k
    else
      var c := KeyChar(if k.caps != k.capslock then UPPER_KEYS else LOWER_KEYS, key);
      k.(buffer := k.buffer[k.writeIndex := c], writeIndex := Advance(k.writeIndex))
  }

  /** keyboard_getchar; None while it waits. */
  function Fetch(k: Kbd): (r: (Kbd, Option<byte>))
    requires k.Ok()
    ensures r.0.Ok()
  {
    if k.readIndex == k.writeIndex then (k, None)
    else (k.(readIndex := Advance(k.readIndex)), Some(k.buffer[k.readIndex]))
  }

  // ---------- key presses decoded from their history ----------

  /** An interrupt with the byte it finds, if the controller has one, or an attempt to read a character. */
  datatype Event = Interrupt(ready: bool, keycode: byte) | Read

  /** Shift counts as held iff the last shift key event was no release. */
  function ShiftHeld(events: seq<Event>): bool {
    if events == [] then false
    else
      var e := events[|events| - 1];
      if e.Interrupt? && e.ready && IsShift(e.keycode % 128) then e.keycode < 128
      else ShiftHeld(events[..|events| - 1])
  }

  function CapsLockPresses(events: seq<Event>): nat {
    if events == [] then 0
    else
      var e := events[|events| - 1];
      CapsLockPresses(events[..|events| - 1]) + if e.Interrupt? && e.ready && e.keycode == KEY_CAPSLOCK then 1 else 0
  }

  /** The event is the press of a key that stands for a character. */
  predicate IsPress(e: Event) {
    e.Interrupt? && e.ready && e.keycode < 128 && !IsShift(e.keycode) && e.keycode != KEY_CAPSLOCK
  }

  /** Upper case iff shift is held or an odd number of caps lock presses came before, but not both. */
  function PressChar(before: seq<Event>, key: byte): byte {
    KeyChar(if ShiftHeld(before) != (CapsLockPresses(before) % 2 == 1) then UPPER_KEYS else LOWER_KEYS, key)
  }

  /** The characters typed. */
  function Typed(events: seq<Event>): seq<byte> {
    if events == [] then []
    else
      var before, e := events[..|events| - 1], events[|events| - 1];
      if IsPress(e) then
        Typed(before) + [PressChar(before, e.keycode)]
      else Typed(before)
  }

  /** What a key stands for, with up as whether shift or caps lock, but not both, is on. */
  predicate StandsFor(key: byte, up: bool, c: byte) {
    if 16 <= key < 26 then c as int == "qwertyuiop"[key - 16] as int - if up then 32 else 0
    else if 30 <= key < 39 then c as int == "asdfghjkl"[key - 30] as int - if up then 32 else 0
    else if 44 <= key < 51 then c as int == "zxcvbnm"[key - 44] as int - if up then 32 else 0
    else if 1 <= key < 16 then c as int == "\U{1B}1234567890-=\U{8}\t"[key - 1] as int
    else if 26 <= key < 29 then c as int == "[]\n"[key - 26] as int
    else if 39 <= key < 42 then c as int == ";'`"[key - 39] as int
    else if 51 <= key < 54 then c as int == ",./"[key - 51] as int
    else if key == 43 then c as int == '\\' as int
    else if key == 55 then c as int == '*' as int
    else if key == 57 then c as int == ' ' as int
    else if key == 74 then c as int == '-' as int
    else if key == 78 then c as int == '+' as int
    else c == 0
  }

  /**
   The characters typed, from the key events: pressing any key but shift and caps lock types what the key stands for,
   in capitals if shift is held or caps lock is on, but not both. Other events type nothing.
   */
  lemma TypedCharacters(events: seq<Event>, e: Event) returns (c: byte)
    ensures ShiftHeld([]) == false && CapsLockPresses([]) == 0 && Typed([]) == []
    ensures ShiftHeld(events + [e]) ==
            if e.Interrupt? && e.ready && (e.keycode == 42 || e.keycode == 54) then true
            else if e.Interrupt? && e.ready && (e.keycode == 170 || e.keycode == 182) then false
            else ShiftHeld(events)
    ensures CapsLockPresses(events + [e]) ==
            CapsLockPresses(events) + if e.Interrupt? && e.ready && e.keycode == 58 then 1 else 0
    ensures if e.Interrupt? && e.ready && e.keycode < 128 && e.keycode != 42 && e.keycode != 54 && e.keycode != 58
            then StandsFor(e.keycode, ShiftHeld(events) != (CapsLockPresses(events) % 2 == 1), c)
                 && Typed(events + [e]) == Typed(events) + [c]
            else Typed(events + [e]) == Typed(events)
  {
    assert ShiftHeld([]) == false && CapsLockPresses([]) == 0 && Typed([]) == [];
    hide ShiftHeld, CapsLockPresses, Typed, StandsFor, PressChar, IsShift;
    HistorySnoc(events, e);
    c := 0;
    if e.Interrupt? {
      ShiftKeys(e.keycode);
      if e.keycode < 128 {
        c := PressChar(events, e.keycode);
        StandsForIts(events, e.keycode);
      }
    }
  }

  lemma ShiftKeys(keycode: byte)
    ensures IsShift(keycode % 128) <==> keycode == 42 || keycode == 54 || keycode == 170 || keycode == 182
    ensures keycode < 128 ==> keycode % 128 == keycode
  {
  }

  lemma StandsForIts(before: seq<Event>, key: byte)
    requires key < 128
    ensures StandsFor(key, ShiftHeld(before) != (CapsLockPresses(before) % 2 == 1), PressChar(before, key))
  {
    hide ShiftHeld, CapsLockPresses, StandsFor, KeyChar;
    if key < 16 {
      Digits(key);
    } else if 16 <= key < 26 {
      UpperRow(key);
    } else if 30 <= key < 39 {
      HomeRow(key);
    } else if 44 <= key < 51 {
      LowerRow(key);
    } else {
      Signs(key);
    }
  }

  lemma Digits(key: byte)
    requires key < 16
    ensures StandsFor(key, false, KeyChar(LOWER_KEYS, key)) && StandsFor(key, true, KeyChar(UPPER_KEYS, key))
  {
    assert LOWER_KEYS[key] == UPPER_KEYS[key] == "\U{0}\U{1B}1234567890-=\U{8}\t"[key];
  }

  lemma UpperRow(key: byte)
    requires 16 <= key < 26
    ensures StandsFor(key, false, KeyChar(LOWER_KEYS, key)) && StandsFor(key, true, KeyChar(UPPER_KEYS, key))
  {
    assert LOWER_KEYS[key] == "qwertyuiop"[key - 16] && UPPER_KEYS[key] == "QWERTYUIOP"[key - 16];
  }

  lemma HomeRow(key: byte)
    requires 30 <= key < 39
    ensures StandsFor(key, false, KeyChar(LOWER_KEYS, key)) && StandsFor(key, true, KeyChar(UPPER_KEYS, key))
  {
    assert LOWER_KEYS[key] == "asdfghjkl"[key - 30] && UPPER_KEYS[key] == "ASDFGHJKL"[key - 30];
  }

  lemma LowerRow(key: byte)
    requires 44 <= key < 51
    ensures StandsFor(key, false, KeyChar(LOWER_KEYS, key)) && StandsFor(key, true, KeyChar(UPPER_KEYS, key))
  {
    assert LOWER_KEYS[key] == "zxcvbnm"[key - 44] && UPPER_KEYS[key] == "ZXCVBNM"[key - 44];
  }

  lemma Signs(key: byte)
    requires 26 <= key < 30 || 39 <= key < 44 || 51 <= key < 128
    ensures StandsFor(key, false, KeyChar(LOWER_KEYS, key)) && StandsFor(key, true, KeyChar(UPPER_KEYS, key))
  {
    assert key < 30 ==> LOWER_KEYS[key] == UPPER_KEYS[key] == "[]\n\U{0}"[key - 26];
    assert 39 <= key < 44 ==> LOWER_KEYS[key] == UPPER_KEYS[key] == ";'`\U{0}\\"[key - 39];
    assert 51 <= key < 59 ==> LOWER_KEYS[key] == UPPER_KEYS[key] == ",./\U{0}*\U{0} \U{0}"[key - 51];
  }

  // ---------- runs ----------

  function Start(buffer: seq<byte>): Kbd {
    Kbd(false, false, buffer, 0, 0)
  }

  /** The keyboard after one event, with the character that the reader was given added to those before. */
  function Step(k: Kbd, out: seq<byte>, e: Event): (r: (Kbd, seq<byte>))
    requires k.Ok()
    ensures r.0.Ok()
  {
    match e
    case Interrupt(ready, keycode) => (if ready then Handle(k, keycode) else k, out)
    case Read =>
      match Fetch(k)
      case (k', None) => (k', out)
      case (k', Some(c)) => (k', out + [c])
  }

  /** The keyboard after a run, and the characters that the reader was given. */
  function Run(k: Kbd, events: seq<Event>): (r: (Kbd, seq<byte>))
    requires k.Ok()
    ensures r.0.Ok()
  {
    if events == [] then (k, [])
    else
      var (k1, out) := Run(k, events[..|events| - 1]);
      Step(k1, out, events[|events| - 1])
  }

  function Unread(k: Kbd, events: seq<Event>): int
    requires k.Ok()
  {
    |Typed(events)| - |Run(k, events).1|
  }

  /** At no point of the run are 256 characters unread. */
  ghost predicate NeverFull(k: Kbd, events: seq<Event>)
    requires k.Ok()
  {
    forall n :: 0 <= n <= |events| ==> Unread(k, events[..n]) < 256
  }

  /** The ring holds what was typed from the `given`-th character on, and the modifiers follow their history. */
  ghost predicate InStep(k: Kbd, events: seq<Event>, given: nat) {
    && k.Ok() && k.caps == ShiftHeld(events) && k.capslock == (CapsLockPresses(events) % 2 == 1)
    && given <= |Typed(events)| && k.writeIndex == |Typed(events)| % RING && k.readIndex == given % RING
    && forall i :: given <= i < |Typed(events)| && |Typed(events)| - RING <= i ==> k.buffer[i % RING] == Typed(events)[i]
  }

  lemma AdvanceNext(n: nat)
    ensures Advance(n % RING) == (n + 1) % RING
  {
  }

  lemma HistorySnoc(events: seq<Event>, e: Event)
    ensures ShiftHeld(events + [e]) ==
            if e.Interrupt? && e.ready && IsShift(e.keycode % 128) then e.keycode < 128 else ShiftHeld(events)
    ensures CapsLockPresses(events + [e]) ==
            CapsLockPresses(events) + if e.Interrupt? && e.ready && e.keycode == KEY_CAPSLOCK then 1 else 0
    ensures Typed(events + [e]) == Typed(events) + if IsPress(e) then [PressChar(events, e.keycode)] else []
  {
  }

  lemma PressInStep(k: Kbd, events: seq<Event>, given: nat, keycode: byte)
    requires InStep(k, events, given) && IsPress(Interrupt(true, keycode))
    ensures InStep(Handle(k, keycode), events + [Interrupt(true, keycode)], given)
  {
    HandlePress(k, keycode);
    hide Handle, KeyChar, Typed, ShiftHeld, CapsLockPresses, Advance, IsPress;
    HistorySnoc(events, Interrupt(true, keycode));
    AdvanceNext(|Typed(events)|);
  }

  lemma HandlePress(k: Kbd, keycode: byte)
    requires k.Ok() && IsPress(Interrupt(true, keycode))
    ensures var c := KeyChar(if k.caps != k.capslock then UPPER_KEYS else LOWER_KEYS, keycode);
            Handle(k, keycode) == k.(buffer := k.buffer[k.writeIndex := c], writeIndex := Advance(k.writeIndex))
  {
    hide KeyChar, Advance;
  }

  lemma HandleInStep(k: Kbd, events: seq<Event>, given: nat, keycode: byte)
    requires InStep(k, events, given)
    ensures InStep(Handle(k, keycode), events + [Interrupt(true, keycode)], given)
  {
    hide KeyChar, Typed, ShiftHeld, CapsLockPresses, Advance;
    if IsPress(Interrupt(true, keycode)) {
      PressInStep(k, events, given, keycode);
    } else {
      HistorySnoc(events, Interrupt(true, keycode));
    }
  }

  lemma IdleInStep(k: Kbd, events: seq<Event>, given: nat, e: Event)
    requires InStep(k, events, given) && (e.Interrupt? ==> !e.ready)
    ensures InStep(k, events + [e], given)
  {
  }

  lemma FetchInStep(k: Kbd, events: seq<Event>, given: nat)
    requires InStep(k, events, given) && |Typed(events)| - given < RING
    ensures match Fetch(k)
            case (k', None) => k' == k && given == |Typed(events)|
            case (k', Some(c)) => given < |Typed(events)| && c == Typed(events)[given] && InStep(k', events, given + 1)
  {
    AdvanceNext(given);
    hide Typed, ShiftHeld, CapsLockPresses;
  }

  /** One more event, with fewer than 256 characters unread before it. */
  lemma StepInStep(k: Kbd, out: seq<byte>, events: seq<Event>, e: Event)
    requires InStep(k, events, |out|) && out <= Typed(events) && |Typed(events)| - |out| < RING
    ensures k.Ok()
    ensures var (k', out') := Step(k, out, e);
            InStep(k', events + [e], |out'|) && out' <= Typed(events + [e])
  {
    InStepBounds(k, events, |out|);
    HistorySnoc(events, e);
    hide InStep, Handle, Typed, Fetch, ShiftHeld, CapsLockPresses, PressChar;
    match e
    case Interrupt(ready, keycode) =>
      if ready { HandleInStep(k, events, |out|, keycode); } else { IdleInStep(k, events, |out|, e); }
    case Read =>
      FetchInStep(k, events, |out|);
      if Fetch(k).1.Some? {
        IdleInStep(Fetch(k).0, events, |out| + 1, e);
      } else {
        IdleInStep(Fetch(k).0, events, |out|, e);
      }
  }

  lemma NeverFullBefore(k: Kbd, events: seq<Event>)
    requires k.Ok() && events != [] && NeverFull(k, events)
    ensures NeverFull(k, events[..|events| - 1]) && Unread(k, events[..|events| - 1]) < RING
  {
    hide Unread;
    var before := events[..|events| - 1];
    forall n | 0 <= n <= |before| ensures Unread(k, before[..n]) < RING {
      assert before[..n] == events[..n];
    }
  }

  /**
   For every interleaving of interrupts and reads in which fewer than 256 characters are ever unread, the
   characters given to the reader are the first of those typed, in order.
   */
  lemma {:induction false} ReaderGetsPrefix(buffer: seq<byte>, events: seq<Event>)
    requires |buffer| == 1024 && NeverFull(Start(buffer), events)
    ensures Run(Start(buffer), events).1 <= Typed(events)
    ensures InStep(Run(Start(buffer), events).0, events, |Run(Start(buffer), events).1|)
  {
    if events != [] {
      hide InStep, NeverFull, Typed, Step;
      var before, e := events[..|events| - 1], events[|events| - 1];
      assert events == before + [e];
      NeverFullBefore(Start(buffer), events);
      ReaderGetsPrefix(buffer, before);
      var (k, out) := Run(Start(buffer), before);
      StepInStep(k, out, before, e);
    }
  }

  lemma InStepBounds(k: Kbd, events: seq<Event>, given: nat)
    requires InStep(k, events, given)
    ensures k.Ok() && given <= |Typed(events)|
  {
  }

  /** With 256 characters unread the ring looks empty: the reader waits, so 255 is what it can hold, not 1024. */
  lemma FullLooksEmpty(k: Kbd, events: seq<Event>, given: nat)
    requires InStep(k, events, given)
    ensures |Typed(events)| - given == 256 ==> Fetch(k) == (k, None)
    ensures 0 < |Typed(events)| - given < 256 ==> Fetch(k).1.Some?
  {
  }

  const KEY_A: byte := 30
  const KEY_S: byte := 31

  /** The key of the letter a pressed n times. */
  function Presses(n: nat): (events: seq<Event>)
    ensures |events| == n
  {
    if n == 0 then [] else Presses(n - 1) + [Interrupt(true, KEY_A)]
  }

  lemma {:induction false} PressHistory(n: nat)
    ensures !ShiftHeld(Presses(n)) && CapsLockPresses(Presses(n)) == 0
    ensures |Typed(Presses(n))| == n && forall i :: 0 <= i < n ==> Typed(Presses(n))[i] == KeyChar(LOWER_KEYS, KEY_A)
  {
    if n > 0 {
      hide *;
      PressHistory(n - 1);
      OnePressMore(n - 1);
    }
  }

  lemma OnePressMore(n: nat)
    requires !ShiftHeld(Presses(n)) && CapsLockPresses(Presses(n)) == 0
    ensures !ShiftHeld(Presses(n + 1)) && CapsLockPresses(Presses(n + 1)) == 0
    ensures Typed(Presses(n + 1)) == Typed(Presses(n)) + [KeyChar(LOWER_KEYS, KEY_A)]
  {
    hide ShiftHeld, CapsLockPresses, Typed, KeyChar;
    HistorySnoc(Presses(n), Interrupt(true, KEY_A));
  }

  lemma {:induction false} PressesInStep(buffer: seq<byte>, n: nat)
    requires |buffer| == BUFFER_SIZE
    ensures var (k, out) := Run(Start(buffer), Presses(n)); out == [] && InStep(k, Presses(n), 0)
  {
    if n > 0 {
      hide InStep, Handle;
      PressesInStep(buffer, n - 1);
      assert Presses(n)[..n - 1] == Presses(n - 1);
      HandleInStep(Run(Start(buffer), Presses(n - 1)).0, Presses(n - 1), 0, KEY_A);
    }
  }

  /** After 256 presses the reader is given nothing. */
  lemma FullRingIsSilent(buffer: seq<byte>)
    requires |buffer| == 1024
    ensures var k := Run(Start(buffer), Presses(256)).0;
            |Typed(Presses(256))| == 256 && Fetch(k) == (k, None)
  {
    hide InStep, KeyChar, Run, Typed;
    PressHistory(RING);
    PressesInStep(buffer, RING);
    FullLooksEmpty(Run(Start(buffer), Presses(RING)).0, Presses(RING), 0);
  }

  /** With one character more than the ring can tell apart, the last one lies in the first one's place. */
  lemma OverrunFetches(k: Kbd, events: seq<Event>)
    requires InStep(k, events, 0) && |Typed(events)| == RING + 1
    ensures Fetch(k).1 == Some(Typed(events)[RING])
  {
    hide Typed, ShiftHeld, CapsLockPresses;
    assert k.buffer[RING % RING] == Typed(events)[RING];
  }

  /** After one more press, of another key, it is given that last character first: no prefix of what was typed. */
  lemma OverrunGivesLastFirst(buffer: seq<byte>)
    requires |buffer| == 1024
    ensures var events := Presses(256) + [Interrupt(true, 31), Read];
            var out := Run(Start(buffer), events).1;
            && |Typed(events)| == 257 && Typed(events)[0] == 'a' as int && Typed(events)[256] == 's' as int
            && out == ['s' as int] && !(out <= Typed(events))
  {
    var before, e := Presses(RING), Interrupt(true, KEY_S);
    hide KeyChar, PressChar, IsPress, Run, Typed, Handle, ShiftHeld, CapsLockPresses, InStep, Fetch, Presses;
    assert before + [e, Read] == (before + [e]) + [Read];
    PressHistory(RING);
    PressesInStep(buffer, RING);
    PressOfS(before);
    HistorySnoc(before, e);
    HistorySnoc(before + [e], Read);
    LastTwo(buffer, before, e);
    var k := Run(Start(buffer), before).0;
    HandleInStep(k, before, 0, KEY_S);
    OverrunFetches(Handle(k, KEY_S), before + [e]);
  }

  lemma PressOfS(before: seq<Event>)
    requires !ShiftHeld(before) && CapsLockPresses(before) == 0
    ensures IsPress(Interrupt(true, KEY_S)) && !IsPress(Read)
    ensures KeyChar(LOWER_KEYS, KEY_A) == 'a' as int && PressChar(before, KEY_S) == 's' as int
  {
    hide ShiftHeld, CapsLockPresses;
  }

  lemma LastTwo(buffer: seq<byte>, before: seq<Event>, e: Event)
    requires |buffer| == BUFFER_SIZE
    ensures var (k, out) := Run(Start(buffer), before);
            Run(Start(buffer), before + [e, Read]) == (var (k1, out1) := Step(k, out, e); Step(k1, out1, Read))
  {
    hide Step;
    assert (before + [e, Read])[..|before| + 1] == before + [e];
    assert (before + [e])[..|before|] == before;
  }

  // ---------- the driver ----------

  class Controller {
    var caps: bool
    var capslock: bool
    const buffer: array<byte>
    var writeIndex: nat
    var readIndex: nat

    ghost predicate Valid()
      reads this
    {
      buffer.Length == BUFFER_SIZE && writeIndex < RING && readIndex < RING
    }

    ghost function State(): (k: Kbd)
      requires Valid()
      reads this, buffer
      ensures k.Ok()
    {
      Kbd(caps, capslock, buffer[..], writeIndex, readIndex)
    }

    constructor ()
      ensures Valid() && fresh(buffer) && State() == Start(buffer[..])
    {
      caps, capslock, writeIndex, readIndex := false, false, 0, 0;
      buffer := new byte[BUFFER_SIZE](i => 0);
    }

    /** keyboard_handler: the status port says whether there is a byte, the data port which. */
    method HandleInterrupt(status: byte, keycode: byte)
      requires Valid()
      modifies this, buffer
      ensures Valid() && State() == if status % 2 == 1 then Handle(old(State()), keycode) else old(State())
    {
      if status % 2 == 0 {
        return;
      }
      var release, key := keycode >= 128, keycode % 128;
      if key == KEY_CAPSLOCK {
        if !release {
          capslock := !capslock;
        }
        return;
      }
      if IsShift(key) {
        caps := !release;
        return;
      }
      if release {
        return;
      }
      var c := KeyChar(if caps != capslock then UPPER_KEYS else LOWER_KEYS, key);
      buffer[writeIndex] := c;
      writeIndex := Advance(writeIndex);
    }

    /** The end of keyboard_getchar: take the next character and echo it. */
    method TakeChar(screen: Terminal.Screen) returns (c: byte)
      requires Valid() && screen.Valid() && screen.buffer != (buffer as object) && readIndex != writeIndex
      modifies this`readIndex, screen`row, screen`column, screen.buffer
      ensures Valid() && screen.Valid() && (State(), Some(c)) == Fetch(old(State()))
      ensures screen.State() == Terminal.PutChar(old(screen.State()), c)
    {
      c := buffer[readIndex];
      readIndex := Advance(readIndex);
      screen.Put(c);
    }

    /**
     keyboard_getchar: wait while the ring is empty, during which the interrupts of `arrivals` come one by one,
     then take a character. None means that it waits on behind all of them.
     */
    method GetChar(screen: Terminal.Screen, arrivals: seq<(byte, byte)>) returns (c: Option<byte>, used: nat)
      requires Valid() && screen.Valid() && screen.buffer != (buffer as object) && screen != (this as object)
      modifies this, buffer, screen`row, screen`column, screen.buffer
      ensures Valid() && screen.Valid() && used <= |arrivals| && (c == None ==> used == |arrivals|)
      ensures forall n :: 0 <= n < used ==> Empty(Run(old(State()), Interrupts(arrivals[..n])).0)
      ensures (State(), if c.Some? then [c.value] else []) == Run(old(State()), Interrupts(arrivals[..used]) + [Read])
      ensures screen.State() == match c case None => old(screen.State()) case Some(b) => Terminal.PutChar(old(screen.State()), b)
    {
      hide Handle, Fetch, Interrupts, Run;
      ghost var k := State();
      used := 0;
      NoInterrupts(k, arrivals);
      while readIndex == writeIndex && used < |arrivals|
        invariant Valid() && screen.Valid() && used <= |arrivals| && screen.State() == old(screen.State())
        invariant (State(), []) == Run(k, Interrupts(arrivals[..used]))
        invariant forall n :: 0 <= n < used ==> Empty(Run(k, Interrupts(arrivals[..n])).0)
      {
        NextInterrupt(k, arrivals, used);
        HandleInterrupt(arrivals[used].0, arrivals[used].1);
        used := used + 1;
      }
      ReadBehind(k, Interrupts(arrivals[..used]));
      if readIndex == writeIndex {
        return None, used;
      }
      var b := TakeChar(screen);
      c := Some(b);
      assert [] + [b] == [b];
    }
  }

  predicate Empty(k: Kbd) {
    k.readIndex == k.writeIndex
  }

  /** Interrupts with the status byte and the key code that they find. */
  function Interrupts(arrivals: seq<(byte, byte)>): (events: seq<Event>)
    ensures |events| == |arrivals|
    ensures forall i :: 0 <= i < |events| ==> events[i] == Interrupt(arrivals[i].0 % 2 == 1, arrivals[i].1)
  {
    seq(|arrivals|, i requires 0 <= i < |arrivals| => Interrupt(arrivals[i].0 % 2 == 1, arrivals[i].1))
  }

  lemma NoInterrupts(k: Kbd, arrivals: seq<(byte, byte)>)
    requires k.Ok()
    ensures Run(k, Interrupts(arrivals[..0])) == (k, [])
  {
  }

  lemma NextInterrupt(k: Kbd, arrivals: seq<(byte, byte)>, n: nat)
    requires k.Ok() && n < |arrivals|
    ensures var (k1, out) := Run(k, Interrupts(arrivals[..n]));
            Run(k, Interrupts(arrivals[..n + 1])) ==
            (if arrivals[n].0 % 2 == 1 then Handle(k1, arrivals[n].1) else k1, out)
  {
    var events := Interrupts(arrivals[..n + 1]);
    assert events[..n] == Interrupts(arrivals[..n]);
  }

  lemma ReadBehind(k: Kbd, events: seq<Event>)
    requires k.Ok()
    ensures var (k1, out) := Run(k, events);
            Run(k, events + [Read]) == match Fetch(k1) case (k2, None) => (k2, out) case (k2, Some(c)) => (k2, out + [c])
    ensures var k1 := Run(k, events).0; Empty(k1) <==> Fetch(k1).1 == None
    ensures var k1 := Run(k, events).0; Empty(k1) ==> Fetch(k1) == (k1, None)
  {
    assert (events + [Read])[..|events|] == events;
  }
}
