/** The keyboard-wedge barcode reader: characters are buffered until a
    carriage return or line feed, which releases the buffered code. The
    inter-character timer is modelled by its effect: every buffered
    character restarts it, which leaves it stopped when the interval is
    negative (QTimer refuses such an interval), a reset stops it, and its
    expiry is the explicit OnTimeout event, which only a running timer
    delivers. */
module BarcodeScanner {
  import opened Common

  /** The handler's fields: enabled flag, timeout in milliseconds, the
      characters received so far, and whether the timer is running. */
  datatype Scanner = Scanner(enabled: bool, timeout: int, buffer: string, timerArmed: bool)

  const Initial: Scanner := Scanner(true, 100, [], false)

  predicate IsTerminator(character: string) {
    character == "\r" || character == "\n"
  }

  /** reset: the buffer is emptied and the timer stopped. */
  function Cleared(s: Scanner): (r: Scanner)
    ensures r.buffer == [] && !r.timerArmed
    ensures r.enabled == s.enabled && r.timeout == s.timeout
  {
    s.(buffer := [], timerArmed := false)
  }

  /** setEnabled: only a change of value does anything, and disabling resets. */
  function EnabledSet(s: Scanner, enabled: bool): Scanner {
    if s.enabled == enabled then s
    else if !enabled then Cleared(s.(enabled := false))
    else s.(enabled := true)
  }

  /** setTimeout: the new interval, used from the next character on. */
  function TimeoutSet(s: Scanner, timeout: int): Scanner {
    s.(timeout := timeout)
  }

  /** processCharacter: ignored while disabled; a terminator releases a
      non-empty buffer as a scanned code and resets; anything else is
      appended and restarts the timer, which then runs only for an interval
      that is not negative. */
  function CharacterProcessed(s: Scanner, character: string): (Scanner, Option<string>) {
    if !s.enabled then (s, None)
    else if IsTerminator(character) then
      if s.buffer != [] then (Cleared(s), Some(s.buffer)) else (s, None)
    else (s.(buffer := s.buffer + character, timerArmed := s.timeout >= 0), None)
  }

  /** onTimeout: the timer's expiry resets the handler; a stopped timer
      never expires. */
  function Expired(s: Scanner): Scanner {
    if s.timerArmed then Cleared(s) else s
  }

  // ---------------------------------------------------------------------------
  // Properties of single events
  // ---------------------------------------------------------------------------

  /** While disabled a character changes nothing and releases nothing. */
  lemma DisabledIgnores(s: Scanner, character: string)
    requires !s.enabled
    ensures CharacterProcessed(s, character) == (s, None)
  {
  }

  /** A terminator releases exactly the buffered code once and leaves the
      buffer empty; on an empty buffer it does nothing at all. */
  lemma TerminatorReleases(s: Scanner, character: string)
    requires s.enabled && IsTerminator(character)
    ensures var (s', code) := CharacterProcessed(s, character);
      s'.enabled && s'.timeout == s.timeout && s'.buffer == [] &&
      (s.buffer != [] ==> code == Some(s.buffer) && !s'.timerArmed) &&
      (s.buffer == [] ==> code == None && s' == s)
  {
  }

  /** Any other input is appended as it is and releases nothing; the timer
      runs afterwards exactly when the interval is not negative. */
  lemma OtherInputBuffers(s: Scanner, character: string)
    requires s.enabled && !IsTerminator(character)
    ensures var (s', code) := CharacterProcessed(s, character);
      code == None && s'.buffer == s.buffer + character && (s'.timerArmed <==> s.timeout >= 0) &&
      s'.enabled == s.enabled && s'.timeout == s.timeout
  {
  }

  /** After buffered input, expiry discards the partial code exactly when
      the interval is not negative; with a negative interval the input
      stays until a terminator or a reset. */
  lemma ExpiryAfterInput(s: Scanner, character: string)
    requires s.enabled && !IsTerminator(character)
    ensures var s' := Expired(CharacterProcessed(s, character).0);
      s'.enabled && s'.timeout == s.timeout && !s'.timerArmed &&
      (s.timeout >= 0 ==> s'.buffer == []) &&
      (s.timeout < 0 ==> s'.buffer == s.buffer + character)
  {
  }

  /** Disabling an enabled scanner clears its buffer; setting the value it
      already has changes nothing; enabling keeps the buffer. */
  lemma SetEnabledEffect(s: Scanner, enabled: bool)
    ensures var s' := EnabledSet(s, enabled);
      s'.enabled == enabled && s'.timeout == s.timeout &&
      (s.enabled == enabled ==> s' == s) &&
      (s.enabled && !enabled ==> s'.buffer == [] && !s'.timerArmed) &&
      (!s.enabled && enabled ==> s'.buffer == s.buffer)
  {
  }

  // ---------------------------------------------------------------------------
  // Properties of a stream of characters
  // ---------------------------------------------------------------------------

  /** Feeding a stream of inputs: the final state and the codes released, in order. */
  function Fed(s: Scanner, inputs: seq<string>): (Scanner, seq<string>)
    decreases |inputs|
  {
    if inputs == [] then (s, [])
    else
      var (s1, code) := CharacterProcessed(s, inputs[0]);
      var (s2, codes) := Fed(s1, inputs[1..]);
      (s2, (if code.Some? then [code.value] else []) + codes)
  }

  /** The inputs that are not terminators, joined. */
  function Kept(inputs: seq<string>): string
    decreases |inputs|
  {
    if inputs == [] then []
    else (if IsTerminator(inputs[0]) then [] else inputs[0]) + Kept(inputs[1..])
  }

  function Concat(codes: seq<string>): string
    decreases |codes|
  {
    if codes == [] then [] else codes[0] + Concat(codes[1..])
  }

  /** Nothing is lost or invented while enabled: the codes released, followed
      by what is left in the buffer, are the old buffer followed by every
      non-terminator input; and no released code is empty. */
  lemma {:induction false} EveryCharacterAccounted(s: Scanner, inputs: seq<string>)
    requires s.enabled
    ensures var (s', codes) := Fed(s, inputs);
      s'.enabled && s'.timeout == s.timeout &&
      Concat(codes) + s'.buffer == s.buffer + Kept(inputs) &&
      (forall i :: 0 <= i < |codes| ==> codes[i] != [])
    decreases |inputs|
  {
    if inputs != [] {
      var (s1, code) := CharacterProcessed(s, inputs[0]);
      EveryCharacterAccounted(s1, inputs[1..]);
      var (s2, codes) := Fed(s1, inputs[1..]);
      if code.Some? {
        assert Concat([code.value] + codes) == code.value + Concat(codes) by {
          assert ([code.value] + codes)[1..] == codes;
        }
      } else {
        assert [] + codes == codes;
      }
    }
  }

  /** Single characters that are never '\r' or '\n'. */
  predicate PlainCharacters(inputs: seq<string>) {
    forall i :: 0 <= i < |inputs| ==> |inputs[i]| == 1 && inputs[i][0] != '\r' && inputs[i][0] != '\n'
  }

  function Characters(code: string): (inputs: seq<string>)
    ensures |inputs| == |code|
    ensures forall i :: 0 <= i < |code| ==> inputs[i] == [code[i]]
  {
    seq(|code|, i requires 0 <= i < |code| => [code[i]])
  }

  /** A scan: the characters of a code, one at a time, then a carriage return,
      reaching an enabled scanner with an empty buffer, release exactly that
      code and leave the buffer empty. */
  lemma ScanRoundTrip(s: Scanner, code: string)
    requires s.enabled && s.buffer == []
    requires code != [] && '\r' !in code && '\n' !in code
    ensures var (s', codes) := Fed(s, Characters(code) + ["\r"]);
      codes == [code] && s'.buffer == [] && s'.enabled
  {
    BufferThrough(s, Characters(code));
    var (s1, none) := Fed(s, Characters(code));
    assert s1.buffer == code by {
      JoinCharacters(code);
    }
    FedAppend(s, Characters(code), ["\r"]);
  }

  /** Plain characters only accumulate: nothing is released and they land in the buffer. */
  lemma {:induction false} BufferThrough(s: Scanner, inputs: seq<string>)
    requires s.enabled && PlainCharacters(inputs)
    ensures Fed(s, inputs).1 == [] && Fed(s, inputs).0.enabled
    ensures Fed(s, inputs).0.buffer == s.buffer + Kept(inputs)
    decreases |inputs|
  {
    if inputs != [] {
      assert !IsTerminator(inputs[0]);
      var s1 := CharacterProcessed(s, inputs[0]).0;
      assert PlainCharacters(inputs[1..]) by {
        forall i | 0 <= i < |inputs[1..]|
          ensures |inputs[1..][i]| == 1 && inputs[1..][i][0] != '\r' && inputs[1..][i][0] != '\n'
        {
          assert inputs[1..][i] == inputs[i + 1];
        }
      }
      BufferThrough(s1, inputs[1..]);
    }
  }

  lemma {:induction false} JoinCharacters(code: string)
    requires '\r' !in code && '\n' !in code
    ensures Kept(Characters(code)) == code
    decreases |code|
  {
    if code != [] {
      assert Characters(code)[1..] == Characters(code[1..]);
      JoinCharacters(code[1..]);
      assert Characters(code)[0] == [code[0]];
      assert !IsTerminator([code[0]]);
      assert [code[0]] + code[1..] == code;
    }
  }

  lemma {:induction false} FedAppend(s: Scanner, a: seq<string>, b: seq<string>)
    ensures Fed(s, a + b).0 == Fed(Fed(s, a).0, b).0
    ensures Fed(s, a + b).1 == Fed(s, a).1 + Fed(Fed(s, a).0, b).1
    decreases |a|
  {
    if a == [] {
      assert a + b == b;
    } else {
      assert (a + b)[0] == a[0];
      assert (a + b)[1..] == a[1..] + b;
      FedAppend(CharacterProcessed(s, a[0]).0, a[1..], b);
    }
  }

  // ---------------------------------------------------------------------------
  // BarcodeScannerHandler
  // ---------------------------------------------------------------------------

  class BarcodeScannerHandler {
    var enabled: bool
    var timeout: int
    var buffer: string
    var timerArmed: bool

    function Contents(): Scanner
      reads this
    {
      Scanner(enabled, timeout, buffer, timerArmed)
    }

    constructor ()
      ensures Contents() == Initial
    {
      enabled := true;
      timeout := 100;
      buffer := [];
      timerArmed := false;
    }

    method Reset()
      modifies this
      ensures Contents() == Cleared(old(Contents()))
    {
      buffer := [];
      timerArmed := false;
    }

    /** Returns whether enabledChanged was emitted. */
    method SetEnabled(value: bool) returns (changed: bool)
      modifies this
      ensures changed == (old(enabled) != value)
      ensures Contents() == EnabledSet(old(Contents()), value)
    {
      changed := enabled != value;
      if changed {
        enabled := value;
        if !value {
          Reset();
        }
      }
    }

    /** Returns whether timeoutChanged was emitted. */
    method SetTimeout(value: int) returns (changed: bool)
      modifies this
      ensures changed == (old(timeout) != value)
      ensures Contents() == TimeoutSet(old(Contents()), value)
    {
      changed := timeout != value;
      if changed {
        timeout := value;
      }
    }

    /** Returns the code barcodeScanned was emitted with, if any. */
    method ProcessCharacter(character: string) returns (scanned: Option<string>)
      modifies this
      ensures (Contents(), scanned) == CharacterProcessed(old(Contents()), character)
    {
      if !enabled {
        return None;
      }
      if character == "\r" || character == "\n" {
        scanned := None;
        if buffer != [] {
          scanned := Some(buffer);
          Reset();
        }
        return;
      }
      buffer := buffer + character;
      timerArmed := timeout >= 0;
      scanned := None;
    }

    /** simulateScan: the argument is emitted as scanned, whatever the state. */
    method SimulateScan(barcode: string) returns (scanned: string)
      ensures scanned == barcode
    {
      scanned := barcode;
    }

    /** The timer expired: the partial input was typing, not a scan. Only
        a running timer delivers the event. */
    method OnTimeout()
      modifies this
      ensures Contents() == Expired(old(Contents()))
    {
      if timerArmed {
        Reset();
      }
    }
  }
}
