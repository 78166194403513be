/** keyCallback: the one decision it makes is whether the window should
    close. Key and action codes are GLFW's. */
module Input {

  /** GLFW_KEY_ESCAPE and the three key actions of GLFW 3. */
  const KeyEscape := 256
  const Release := 0
  const Press := 1
  const Repeat := 2

  /** The window's close flag after one key event: a held key's repeat is
      ignored, ESC pressed or released sets the flag, and every other key
      leaves it as it was. */
  function KeyCallback(key: int, action: int, shouldClose: bool): (r: bool)
    ensures action == Repeat ==> r == shouldClose
    ensures action != Repeat && key == KeyEscape ==> r
    ensures key != KeyEscape ==> r == shouldClose
  {
    if action == Repeat then shouldClose
    else if key == KeyEscape then true
    else shouldClose
  }

  datatype KeyEvent = KeyEvent(key: int, action: int)

  /** An event the callback answers by closing the window. */
  predicate Closes(e: KeyEvent) {
    e.key == KeyEscape && e.action != Repeat
  }

  /** The close flag after the callback has seen the events in order: a flag
      already set stays set, and events none of which closes leave it alone. */
  function Replay(events: seq<KeyEvent>, shouldClose: bool): (r: bool)
    ensures shouldClose ==> r
    ensures (forall i :: 0 <= i < |events| ==> !Closes(events[i])) ==> r == shouldClose
    decreases |events|
  {
    if |events| == 0 then shouldClose
    else Replay(events[1..], KeyCallback(events[0].key, events[0].action, shouldClose))
  }

  /** After any sequence of events the window is due to close exactly when
      it already was or one of the events was ESC pressed or released. */
  lemma {:induction false} ReplayCloses(events: seq<KeyEvent>, shouldClose: bool)
    ensures Replay(events, shouldClose) <==> shouldClose || exists i :: 0 <= i < |events| && Closes(events[i])
    decreases |events|
  {
    if |events| > 0 {
      var e := events[0];
      var next := KeyCallback(e.key, e.action, shouldClose);
      ReplayCloses(events[1..], next);
      assert next <==> shouldClose || Closes(e);
      if exists i :: 0 <= i < |events[1..]| && Closes(events[1..][i]) {
        var i :| 0 <= i < |events[1..]| && Closes(events[1..][i]);
        assert Closes(events[i + 1]);
      }
      if exists i :: 0 <= i < |events| && Closes(events[i]) {
        var i :| 0 <= i < |events| && Closes(events[i]);
        if i > 0 {
          assert Closes(events[1..][i - 1]);
        }
      }
    }
  }

  /** Dropping every repeat event changes nothing. */
  lemma {:induction false} RepeatsIgnored(events: seq<KeyEvent>, shouldClose: bool)
    ensures Replay(events, shouldClose) == Replay(WithoutRepeats(events), shouldClose)
    decreases |events|
  {
    if |events| > 0 {
      RepeatsIgnored(events[1..], shouldClose);
      var next := KeyCallback(events[0].key, events[0].action, shouldClose);
      RepeatsIgnored(events[1..], next);
      if events[0].action != Repeat {
        assert WithoutRepeats(events) == [events[0]] + WithoutRepeats(events[1..]);
        assert ([events[0]] + WithoutRepeats(events[1..]))[1..] == WithoutRepeats(events[1..]);
      }
    }
  }

  /** The events with every repeat dropped: exactly the presses and releases,
      in their original order (see WithoutRepeatsAppend). */
  function WithoutRepeats(events: seq<KeyEvent>): (r: seq<KeyEvent>)
    ensures forall i :: 0 <= i < |r| ==> r[i].action != Repeat
    ensures forall e :: e in r <==> e in events && e.action != Repeat
    ensures |r| <= |events|
    decreases |events|
  {
    if |events| == 0 then []
    else if events[0].action == Repeat then WithoutRepeats(events[1..])
    else [events[0]] + WithoutRepeats(events[1..])
  }

  /** Filtering commutes with concatenation, so the events kept keep their
      relative order. */
  lemma {:induction false} WithoutRepeatsAppend(a: seq<KeyEvent>, b: seq<KeyEvent>)
    ensures WithoutRepeats(a + b) == WithoutRepeats(a) + WithoutRepeats(b)
    decreases |a|
  {
    if |a| > 0 {
      assert (a + b)[0] == a[0];
      assert (a + b)[1..] == a[1..] + b;
      WithoutRepeatsAppend(a[1..], b);
    } else {
      assert a + b == b;
    }
  }
}
