/** The player's input state: one "currently requested" flag per recognised
    key, set when the key goes down and cleared when it comes up. */
module Input {
  import opened Options

  /** The keys the game listens for, named by the key name the browser
      reports for them. */
  datatype Key = ArrowUp | ArrowDown | ArrowLeft | ArrowRight | Space

  /** The game's key map; the up arrow requests a rotation. */
  datatype KeyMap = KeyMap(up: bool, down: bool, left: bool, right: bool, space: bool)

  /** The key map the game starts with: nothing requested. */
  const Released: KeyMap := KeyMap(false, false, false, false, false)

  /** The key a key name stands for; any other name is not listened for. */
  function KeyNamed(name: string): (k: Option<Key>)
    ensures k == Some(ArrowUp) <==> name == "ArrowUp"
    ensures k == Some(ArrowDown) <==> name == "ArrowDown"
    ensures k == Some(ArrowLeft) <==> name == "ArrowLeft"
    ensures k == Some(ArrowRight) <==> name == "ArrowRight"
    ensures k == Some(Space) <==> name == "Space"
  {
    if name == "ArrowUp" then Some(ArrowUp)
    else if name == "ArrowDown" then Some(ArrowDown)
    else if name == "ArrowLeft" then Some(ArrowLeft)
    else if name == "ArrowRight" then Some(ArrowRight)
    else if name == "Space" then Some(Space)
    else None
  }

  /** The flag of key `k` in the map. */
  function Held(m: KeyMap, k: Key): bool {
    match k
    case ArrowUp => m.up
    case ArrowDown => m.down
    case ArrowLeft => m.left
    case ArrowRight => m.right
    case Space => m.space
  }

  /** The map with the flag of `k` set to `v` and every other flag kept. */
  function WithFlag(m: KeyMap, k: Key, v: bool): (r: KeyMap)
    ensures Held(r, k) == v
    ensures forall k' :: k' != k ==> Held(r, k') == Held(m, k')
  {
    match k
    case ArrowUp => m.(up := v)
    case ArrowDown => m.(down := v)
    case ArrowLeft => m.(left := v)
    case ArrowRight => m.(right := v)
    case Space => m.(space := v)
  }

  /** A key event: the flag of the named key becomes `pressed` (true on key
      down, false on key up); a name the game does not listen for changes
      nothing. */
  function OnKey(m: KeyMap, name: string, pressed: bool): (r: KeyMap)
    ensures KeyNamed(name).None? ==> r == m
    ensures forall k :: Held(r, k) == if KeyNamed(name) == Some(k) then pressed else Held(m, k)
  {
    match KeyNamed(name)
    case None => m
    case Some(k) => WithFlag(m, k, pressed)
  }

  /** The key-down handler. */
  function KeyDown(m: KeyMap, name: string): (r: KeyMap)
    ensures forall k :: Held(r, k) == (Held(m, k) || KeyNamed(name) == Some(k))
  {
    OnKey(m, name, true)
  }

  /** The key-up handler. */
  function KeyUp(m: KeyMap, name: string): (r: KeyMap)
    ensures forall k :: Held(r, k) == (Held(m, k) && KeyNamed(name) != Some(k))
  {
    OnKey(m, name, false)
  }

  /** Two maps with the same flags are the same map. */
  lemma SameFlagsSameMap(m1: KeyMap, m2: KeyMap)
    requires forall k :: Held(m1, k) == Held(m2, k)
    ensures m1 == m2
  {
    assert Held(m1, ArrowUp) == Held(m2, ArrowUp);
    assert Held(m1, ArrowDown) == Held(m2, ArrowDown);
    assert Held(m1, ArrowLeft) == Held(m2, ArrowLeft);
    assert Held(m1, ArrowRight) == Held(m2, ArrowRight);
    assert Held(m1, Space) == Held(m2, Space);
  }

  /** Releasing a key undoes pressing it: only the last event for a key counts. */
  lemma ReleaseAfterPress(m: KeyMap, name: string)
    ensures KeyUp(KeyDown(m, name), name) == KeyUp(m, name)
  {
    SameFlagsSameMap(KeyUp(KeyDown(m, name), name), KeyUp(m, name));
  }

  /** Pressing a key twice is pressing it once (keyboard auto-repeat adds
      nothing beyond re-setting a flag the game has cleared). */
  lemma PressIsIdempotent(m: KeyMap, name: string)
    ensures KeyDown(KeyDown(m, name), name) == KeyDown(m, name)
  {
    SameFlagsSameMap(KeyDown(KeyDown(m, name), name), KeyDown(m, name));
  }

  /** Events for different keys commute. */
  lemma EventsOnDifferentKeysCommute(m: KeyMap, a: string, pa: bool, b: string, pb: bool)
    requires KeyNamed(a) != KeyNamed(b) || KeyNamed(a).None?
    ensures OnKey(OnKey(m, a, pa), b, pb) == OnKey(OnKey(m, b, pb), a, pa)
  {
    SameFlagsSameMap(OnKey(OnKey(m, a, pa), b, pb), OnKey(OnKey(m, b, pb), a, pa));
  }
}
