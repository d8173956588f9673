/** The keystroke assembler behind the barcode reader: a scanner types the
    code as a fast burst of key presses ending in Enter. A press that comes
    more than the timeout after the previous one starts a new scan; Enter
    ends it and hands the trimmed buffer on; a buffer that grows past 50
    characters is thrown away. The clock reading and the key are inputs, and
    the code handed to the callback is returned instead of scheduled. */
module Scanner {
  import opened Wrappers
  import opened Text

  /** NativeKeyEvent.VC_ENTER and NativeKeyEvent.CHAR_UNDEFINED. */
  const VC_ENTER: int := 0x1C
  const CHAR_UNDEFINED: char := '\U{FFFF}'
  /** The longest buffer kept; a longer one is not a barcode. */
  const MAX_BUFFER: nat := 50
  /** The default of app.barcode-reader.timeout-ms. */
  const DEFAULT_TIMEOUT: int := 250

  datatype KeyEvent = KeyEvent(keyCode: int, keyChar: char)

  datatype ScanState = ScanState(buffer: string, scanning: bool, lastInputTime: int)

  /** One nativeKeyPressed: the new state and the code handed to the
      callback, if any. */
  function Step(s: ScanState, e: KeyEvent, now: int, timeout: int, callbackSet: bool): (r: (ScanState, Option<string>))
    ensures r.0.lastInputTime == now
    ensures |s.buffer| <= MAX_BUFFER ==> |r.0.buffer| <= MAX_BUFFER
    ensures r.1.Some? ==> callbackSet && e.keyCode == VC_ENTER && r.1.value != []
  {
    var newScan := now - s.lastInputTime > timeout;
    var buffer := if newScan then [] else s.buffer;
    if !(newScan || s.scanning) then
      (ScanState(buffer, false, now), None)
    else if e.keyCode == VC_ENTER then
      var barcode := Trim(buffer);
      (ScanState([], false, now), if barcode != [] && callbackSet then Some(barcode) else None)
    else
      var grown := if e.keyChar != CHAR_UNDEFINED then buffer + [e.keyChar] else buffer;
      if |grown| > MAX_BUFFER then (ScanState([], false, now), None)
      else (ScanState(grown, true, now), None)
  }

  /** A press while not scanning and within the timeout changes nothing but
      the time stamp and hands nothing on. */
  lemma IdlePressIgnored(s: ScanState, e: KeyEvent, now: int, timeout: int, callbackSet: bool)
    requires !s.scanning && now - s.lastInputTime <= timeout
    ensures Step(s, e, now, timeout, callbackSet) == (s.(lastInputTime := now), None)
  {
  }

  /** A press that starts a new scan empties the buffer first: Enter then
      hands nothing on, and a character starts the buffer afresh. */
  lemma LatePressStartsScan(s: ScanState, e: KeyEvent, now: int, timeout: int, callbackSet: bool)
    requires now - s.lastInputTime > timeout
    ensures e.keyCode == VC_ENTER ==> Step(s, e, now, timeout, callbackSet) == (ScanState([], false, now), None)
    ensures e.keyCode != VC_ENTER && e.keyChar != CHAR_UNDEFINED ==>
            Step(s, e, now, timeout, callbackSet) == (ScanState([e.keyChar], true, now), None)
    ensures e.keyCode != VC_ENTER && e.keyChar == CHAR_UNDEFINED ==>
            Step(s, e, now, timeout, callbackSet) == (ScanState([], true, now), None)
  {
    assert Trim([]) == [];
    assert [] + [e.keyChar] == [e.keyChar];
  }

  /** A prompt character key while scanning appends its character, as long
      as the buffer stays within 50 characters. */
  lemma PromptKeyAppends(s: ScanState, e: KeyEvent, now: int, timeout: int, callbackSet: bool)
    requires s.scanning && now - s.lastInputTime <= timeout
    requires e.keyCode != VC_ENTER && e.keyChar != CHAR_UNDEFINED && |s.buffer| < MAX_BUFFER
    ensures Step(s, e, now, timeout, callbackSet) == (ScanState(s.buffer + [e.keyChar], true, now), None)
  {
  }

  /** A prompt character key on a full buffer throws the buffer away and
      stops scanning: a text that long is not a barcode. */
  lemma PromptKeyOverflows(s: ScanState, e: KeyEvent, now: int, timeout: int, callbackSet: bool)
    requires s.scanning && now - s.lastInputTime <= timeout
    requires e.keyCode != VC_ENTER && e.keyChar != CHAR_UNDEFINED && |s.buffer| == MAX_BUFFER
    ensures Step(s, e, now, timeout, callbackSet) == (ScanState([], false, now), None)
  {
  }

  /** A prompt key with no character while scanning leaves the buffer as it
      is and keeps scanning. */
  lemma PromptUndefinedKeeps(s: ScanState, e: KeyEvent, now: int, timeout: int, callbackSet: bool)
    requires s.scanning && now - s.lastInputTime <= timeout
    requires e.keyCode != VC_ENTER && e.keyChar == CHAR_UNDEFINED && |s.buffer| <= MAX_BUFFER
    ensures Step(s, e, now, timeout, callbackSet) == (ScanState(s.buffer, true, now), None)
  {
  }

  /** A prompt Enter while scanning ends the scan and hands on the trimmed
      buffer when it is not blank and a callback is set. */
  lemma PromptEnterHandsOn(s: ScanState, e: KeyEvent, now: int, timeout: int, callbackSet: bool)
    requires s.scanning && now - s.lastInputTime <= timeout && e.keyCode == VC_ENTER
    ensures var code := Trim(s.buffer);
            Step(s, e, now, timeout, callbackSet) ==
              (ScanState([], false, now), if code != [] && callbackSet then Some(code) else None)
  {
  }

  /** Every press within the timeout of the one before. */
  predicate Prompt(last: int, times: seq<int>, timeout: int)
    decreases |times|
  {
    times == [] || (times[0] - last <= timeout && Prompt(times[0], times[1..], timeout))
  }

  /** Keys that type a character: not Enter, and with a defined character. */
  predicate Typing(keys: seq<KeyEvent>) {
    forall i :: 0 <= i < |keys| ==> keys[i].keyCode != VC_ENTER && keys[i].keyChar != CHAR_UNDEFINED
  }

  function Chars(keys: seq<KeyEvent>): (cs: string)
    ensures |cs| == |keys| && forall i :: 0 <= i < |keys| ==> cs[i] == keys[i].keyChar
  {
    if keys == [] then [] else [keys[0].keyChar] + Chars(keys[1..])
  }

  /** A sequence of presses, each at its time, and the codes handed on. */
  function Run(s: ScanState, events: seq<KeyEvent>, times: seq<int>, timeout: int, callbackSet: bool): (ScanState, seq<string>)
    requires |events| == |times|
    decreases |events|
  {
    if events == [] then (s, [])
    else
      var step := Step(s, events[0], times[0], timeout, callbackSet);
      var rest := Run(step.0, events[1..], times[1..], timeout, callbackSet);
      (rest.0, (if step.1.Some? then [step.1.value] else []) + rest.1)
  }

  /** A prompt Enter alone while scanning: the reader goes idle and the
      trimmed buffer is handed on when it is not blank and a callback is set. */
  lemma PromptEnterRun(s: ScanState, enter: KeyEvent, times: seq<int>, timeout: int, callbackSet: bool)
    requires s.scanning && enter.keyCode == VC_ENTER
    requires |times| == 1 && times[0] - s.lastInputTime <= timeout
    ensures var code := Trim(s.buffer);
            Run(s, [enter], times, timeout, callbackSet) ==
              (ScanState([], false, times[0]), if code != [] && callbackSet then [code] else [])
  {
    var code := Trim(s.buffer);
    var out := if code != [] && callbackSet then Some(code) else None;
    var idle := ScanState([], false, times[0]);
    PromptEnterHandsOn(s, enter, times[0], timeout, callbackSet);
    assert [enter][1..] == [] && times[1..] == [];
    assert Run(idle, [], [], timeout, callbackSet) == (idle, []);
    assert (if out.Some? then [out.value] else []) + [] == (if code != [] && callbackSet then [code] else []);
  }

  /** A prompt character key while scanning is absorbed into the buffer and
      the run carries on from there. */
  lemma PromptKeyRun(s: ScanState, e: KeyEvent, rest: seq<KeyEvent>, times: seq<int>, timeout: int, callbackSet: bool)
    requires s.scanning && |times| == |rest| + 1 && times[0] - s.lastInputTime <= timeout
    requires e.keyCode != VC_ENTER && e.keyChar != CHAR_UNDEFINED && |s.buffer| < MAX_BUFFER
    ensures Run(s, [e] + rest, times, timeout, callbackSet) ==
            Run(ScanState(s.buffer + [e.keyChar], true, times[0]), rest, times[1..], timeout, callbackSet)
  {
    PromptKeyAppends(s, e, times[0], timeout, callbackSet);
    assert ([e] + rest)[0] == e && ([e] + rest)[1..] == rest;
    var tail := Run(ScanState(s.buffer + [e.keyChar], true, times[0]), rest, times[1..], timeout, callbackSet);
    assert [] + tail.1 == tail.1;
  }

  /** The buffer after the first key, followed by the remaining characters,
      is the buffer followed by all of them. */
  lemma AppendFirstChar(buffer: string, keys: seq<KeyEvent>)
    requires keys != []
    ensures buffer + [keys[0].keyChar] + Chars(keys[1..]) == buffer + Chars(keys)
  {
    assert Chars(keys) == [keys[0].keyChar] + Chars(keys[1..]);
  }

  /** While scanning, prompt typing followed by a prompt Enter hands on the
      trimmed buffer plus everything typed (when non-empty and a callback is
      set) and leaves the reader idle with an empty buffer. */
  lemma {:induction false} TypingThenEnter(s: ScanState, keys: seq<KeyEvent>, enter: KeyEvent,
                                           times: seq<int>, timeout: int, callbackSet: bool)
    requires s.scanning && Typing(keys) && enter.keyCode == VC_ENTER
    requires |times| == |keys| + 1 && Prompt(s.lastInputTime, times, timeout)
    requires |s.buffer| + |keys| <= MAX_BUFFER
    decreases |keys|
    ensures var code := Trim(s.buffer + Chars(keys));
            Run(s, keys + [enter], times, timeout, callbackSet) ==
              (ScanState([], false, times[|keys|]), if code != [] && callbackSet then [code] else [])
  {
    var events := keys + [enter];
    assert times[0] - s.lastInputTime <= timeout;
    if keys == [] {
      assert events == [enter] && s.buffer + Chars(keys) == s.buffer;
      PromptEnterRun(s, enter, times, timeout, callbackSet);
    } else {
      var next := ScanState(s.buffer + [keys[0].keyChar], true, times[0]);
      assert events == [keys[0]] + (keys[1..] + [enter]);
      PromptKeyRun(s, keys[0], keys[1..] + [enter], times, timeout, callbackSet);
      assert Typing(keys[1..]) by {
        forall i | 0 <= i < |keys[1..]| ensures keys[1..][i].keyCode != VC_ENTER && keys[1..][i].keyChar != CHAR_UNDEFINED {
          assert keys[1..][i] == keys[i + 1];
        }
      }
      TypingThenEnter(next, keys[1..], enter, times[1..], timeout, callbackSet);
      AppendFirstChar(s.buffer, keys);
      assert times[1..][|keys[1..]|] == times[|keys|];
    }
  }

  /** A whole scan: the first key comes after a pause longer than the
      timeout, the rest and the closing Enter each within it, and at most 50
      characters. Exactly the trimmed characters are handed on, once (when
      they are not all blank and a callback is set). */
  lemma ScanHandsOnCode(s: ScanState, keys: seq<KeyEvent>, enter: KeyEvent,
                        times: seq<int>, timeout: int, callbackSet: bool)
    requires keys != [] && Typing(keys) && enter.keyCode == VC_ENTER && |keys| <= MAX_BUFFER
    requires |times| == |keys| + 1
    requires times[0] - s.lastInputTime > timeout && Prompt(times[0], times[1..], timeout)
    ensures var code := Trim(Chars(keys));
            Run(s, keys + [enter], times, timeout, callbackSet) ==
              (ScanState([], false, times[|keys|]), if code != [] && callbackSet then [code] else [])
  {
    var first := ScanState([keys[0].keyChar], true, times[0]);
    LatePressStartsScan(s, keys[0], times[0], timeout, callbackSet);
    assert (keys + [enter])[1..] == keys[1..] + [enter];
    assert Typing(keys[1..]) by {
      forall i | 0 <= i < |keys[1..]| ensures keys[1..][i].keyCode != VC_ENTER && keys[1..][i].keyChar != CHAR_UNDEFINED {
        assert keys[1..][i] == keys[i + 1];
      }
    }
    TypingThenEnter(first, keys[1..], enter, times[1..], timeout, callbackSet);
    var tail := Run(first, keys[1..] + [enter], times[1..], timeout, callbackSet);
    assert first.buffer + Chars(keys[1..]) == Chars(keys);
    assert times[1..][|keys[1..]|] == times[|keys|];
    var code := Trim(Chars(keys));
    assert tail == (ScanState([], false, times[|keys|]), if code != [] && callbackSet then [code] else []);
    assert [] + tail.1 == tail.1;
    assert Run(s, keys + [enter], times, timeout, callbackSet) == tail;
  }

  /** BarcodeScannerService: the buffer, the scanning flag and the time of
      the last press, with the configured timeout and whether a callback has
      been set. */
  class BarcodeScannerService {
    const barcodeScanTimeout: int
    var buffer: string
    var scanning: bool
    var lastInputTime: int
    var callbackSet: bool

    ghost predicate Valid()
      reads this
    {
      |buffer| <= MAX_BUFFER
    }

    function State(): ScanState
      reads this
    {
      ScanState(buffer, scanning, lastInputTime)
    }

    constructor (timeout: int)
      ensures Valid() && barcodeScanTimeout == timeout
      ensures buffer == [] && !scanning && lastInputTime == 0 && !callbackSet
    {
      barcodeScanTimeout := timeout;
      buffer := [];
      scanning := false;
      lastInputTime := 0;
      callbackSet := false;
    }

    /** setBarcodeCallback: a null callback unsets it. */
    method SetBarcodeCallback(isSet: bool)
      modifies this`callbackSet
      ensures callbackSet == isSet
    {
      callbackSet := isSet;
    }

    /** nativeKeyPressed at the clock reading currentTime. */
    method NativeKeyPressed(e: KeyEvent, currentTime: int) returns (handedOn: Option<string>)
      requires Valid()
      modifies this`buffer, this`scanning, this`lastInputTime
      ensures Valid()
      ensures (State(), handedOn) == Step(old(State()), e, currentTime, barcodeScanTimeout, callbackSet)
    {
      if currentTime - lastInputTime > barcodeScanTimeout {
        buffer := [];
        scanning := true;
      }
      lastInputTime := currentTime;
      handedOn := None;
      if scanning {
        if e.keyCode == VC_ENTER {
          var barcode := Trim(buffer);
          if barcode != [] && callbackSet {
            handedOn := Some(barcode);
          }
          buffer := [];
          scanning := false;
        } else {
          if e.keyChar != CHAR_UNDEFINED {
            buffer := buffer + [e.keyChar];
          }
        }
        if |buffer| > MAX_BUFFER {
          buffer := [];
          scanning := false;
        }
      }
    }
  }
}
