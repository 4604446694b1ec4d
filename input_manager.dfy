/** The engine's input manager (class InputManager): a registry of SDL key
    codes, each with its pressed state, plus the last mouse position and
    relative motion. Only registered keys are tracked; events for other keys
    are ignored. A fatal CRASH is modelled as the operation reporting false
    and stopping. */
module Input {

  /** The SDL events the manager looks at; every other event type is Other. */
  datatype Event =
    | KeyDown(key: int)
    | KeyUp(key: int)
    | MouseMotion(x: int, y: int, xrel: int, yrel: int)
    | Other

  datatype Pos = Pos(x: int, y: int)

  /** `e` is a keyboard event about key `k`. */
  predicate About(e: Event, k: int) {
    (e.KeyDown? || e.KeyUp?) && e.key == k
  }

  predicate Distinct(ks: seq<int>) {
    forall i, j :: 0 <= i < j < |ks| ==> ks[i] != ks[j]
  }

  /** registerKeys(ks) from the registry `m`: each key is inserted as not
      pressed, in list order, until one is already registered, which is
      fatal. The result says whether every insertion succeeded, and gives
      the registry at that point. */
  function RegisterAll(m: map<int, bool>, ks: seq<int>): (r: (bool, map<int, bool>))
    ensures r.0 <==> Distinct(ks) && forall i :: 0 <= i < |ks| ==> ks[i] !in m
    ensures r.0 ==> r.1.Keys == m.Keys + (set k | k in ks)
    ensures forall k :: k in m ==> k in r.1 && r.1[k] == m[k]
    ensures forall k :: k in r.1 && k !in m ==> k in ks && !r.1[k]
    decreases |ks|
  {
    if |ks| == 0 then (true, m)
    else if ks[0] in m then (false, m)
    else
      var r := RegisterAll(m[ks[0] := false], ks[1..]);
      assert forall i :: 0 <= i < |ks| - 1 ==> ks[1..][i] == ks[i + 1];
      assert (set k | k in ks) == {ks[0]} + (set k | k in ks[1..]);
      assert r.0 <==> Distinct(ks) && forall i :: 0 <= i < |ks| ==> ks[i] !in m by {
        if r.0 {
          forall i, j | 0 <= i < j < |ks| ensures ks[i] != ks[j] {
            if i > 0 {
              assert ks[i] == ks[1..][i - 1] && ks[j] == ks[1..][j - 1];
            } else {
              assert ks[j] == ks[1..][j - 1];
            }
          }
        }
      }
      r
  }

  /** updateKeyByEvent(e) on the registry `m`. */
  function KeyUpdate(m: map<int, bool>, e: Event): (r: map<int, bool>)
    ensures r.Keys == m.Keys
    ensures forall k :: k in m ==> r[k] == if About(e, k) then e.KeyDown? else m[k]
  {
    if (e.KeyDown? || e.KeyUp?) && e.key in m then m[e.key := e.KeyDown?] else m
  }

  /** updateMouseMovement(e) on the position and the relative motion. */
  function MouseUpdate(pos: Pos, rel: Pos, e: Event): (r: (Pos, Pos))
    ensures e.MouseMotion? ==> r == (Pos(e.x, e.y), Pos(e.xrel, e.yrel))
    ensures !e.MouseMotion? ==> r == (pos, rel)
  {
    match e
    case MouseMotion(x, y, xrel, yrel) => (Pos(x, y), Pos(xrel, yrel))
    case _ => (pos, rel)
  }

  /** The registry after updateKeyByEvent has been called on each event of
      `es` in turn. */
  function Replay(m: map<int, bool>, es: seq<Event>): map<int, bool>
    decreases |es|
  {
    if |es| == 0 then m else Replay(KeyUpdate(m, es[0]), es[1..])
  }

  /** Reference definition: a key's state is decided by the last keyboard
      event about it, and is `initial` when there is none. */
  function LastKeyState(k: int, es: seq<Event>, initial: bool): bool
    decreases |es|
  {
    if |es| == 0 then initial
    else if About(es[|es| - 1], k) then es[|es| - 1].KeyDown?
    else LastKeyState(k, es[..|es| - 1], initial)
  }

  /** Replaying one more event is one more update. */
  lemma {:induction false} ReplaySnoc(m: map<int, bool>, es: seq<Event>, e: Event)
    ensures Replay(m, es + [e]) == KeyUpdate(Replay(m, es), e)
    decreases |es|
  {
    if |es| > 0 {
      assert (es + [e])[1..] == es[1..] + [e];
      ReplaySnoc(KeyUpdate(m, es[0]), es[1..], e);
    }
  }

  /** Updates never add or remove a key, and a registered key ends in the
      state the last keyboard event about it says. */
  lemma {:induction false} ReplayLastEventDecides(m: map<int, bool>, es: seq<Event>)
    ensures Replay(m, es).Keys == m.Keys
    ensures forall k :: k in m ==> Replay(m, es)[k] == LastKeyState(k, es, m[k])
    decreases |es|
  {
    if |es| > 0 {
      var init, e := es[..|es| - 1], es[|es| - 1];
      assert es == init + [e];
      ReplaySnoc(m, init, e);
      ReplayLastEventDecides(m, init);
    }
  }

  class InputManager {
    var keys: map<int, bool>
    var mousePos: Pos
    var mouseRelPos: Pos

    /** InputManager(): no registered keys; the two positions start at the
        origin, as glm::vec2's default constructor sets them. */
    constructor ()
      ensures keys == map[] && mousePos == Pos(0, 0) && mouseRelPos == Pos(0, 0)
    {
      keys := map[];
      mousePos := Pos(0, 0);
      mouseRelPos := Pos(0, 0);
    }

    /** registerKey(k): a new key is inserted as not pressed; a key already
        registered is fatal and its entry is kept. */
    method RegisterKey(k: int) returns (ok: bool)
      modifies this`keys
      ensures ok <==> k !in old(keys)
      ensures ok ==> keys == old(keys)[k := false]
      ensures !ok ==> keys == old(keys)
    {
      if k in keys {
        ok := false;
      } else {
        keys := keys[k := false];
        ok := true;
      }
    }

    /** registerKeys(ks): registerKey on each key in list order, stopping at
        the first fatal one. */
    method RegisterKeys(ks: seq<int>) returns (ok: bool)
      modifies this`keys
      ensures (ok, keys) == RegisterAll(old(keys), ks)
    {
      var i := 0;
      while i < |ks|
        invariant 0 <= i <= |ks|
        invariant RegisterAll(old(keys), ks) == RegisterAll(keys, ks[i..])
      {
        assert ks[i..][1..] == ks[i + 1..];
        ok := RegisterKey(ks[i]);
        if !ok {
          return;
        }
        i := i + 1;
      }
      ok := true;
    }

    /** isKeyPressed(k): the stored state of a registered key; an
        unregistered key gives a warning and false, and is not added. */
    method IsKeyPressed(k: int) returns (pressed: bool, warned: bool)
      ensures warned <==> k !in keys
      ensures pressed <==> k in keys && keys[k]
    {
      if k !in keys {
        return false, true;
      }
      return keys[k], false;
    }

    /** getMousePos(). */
    method GetMousePos() returns (p: Pos)
      ensures p == mousePos
    {
      p := mousePos;
    }

    /** getMouseRelPos(). */
    method GetMouseRelPos() returns (p: Pos)
      ensures p == mouseRelPos
    {
      p := mouseRelPos;
    }

    /** updateKeyByEvent(e): a key-down or key-up event for a registered key
        sets its state; nothing else changes. */
    method UpdateKeyByEvent(e: Event)
      modifies this`keys
      ensures keys == KeyUpdate(old(keys), e)
    {
      if e.KeyDown? || e.KeyUp? {
        if e.key in keys {
          keys := keys[e.key := e.KeyDown?];
        }
      }
    }

    /** updateMouseMovement(e): a mouse-motion event overwrites the position
        and the relative motion; nothing else changes. */
    method UpdateMouseMovement(e: Event)
      modifies this`mousePos, this`mouseRelPos
      ensures (mousePos, mouseRelPos) == MouseUpdate(old(mousePos), old(mouseRelPos), e)
    {
      if e.MouseMotion? {
        mousePos := Pos(e.x, e.y);
        mouseRelPos := Pos(e.xrel, e.yrel);
      }
    }
  }
}
