/** Vocabulary shared by the session engine, the page controller and the
    score board: the three participant keys that every score, TPS and
    click-list object in the game is indexed by. */
module Common {

  datatype Option<+T> = None | Some(value: T)

  /** The participant keys `single`, `player1` and `player2`. */
  datatype Key = Single | Player1 | Player2

  /** The play modes `'single'` and `'dual'`. */
  datatype Mode = SingleMode | DualMode

  /** The property name a key is stored under in the game's score objects. */
  function KeyName(k: Key): string
  {
    match k
    case Single => "single"
    case Player1 => "player1"
    case Player2 => "player2"
  }

  /** Looks a property name up among the three participant keys; any other
      string names no participant. */
  function ParseKey(s: string): (r: Option<Key>)
    ensures r.Some? ==> KeyName(r.value) == s
    ensures r.None? ==> s != "single" && s != "player1" && s != "player2"
  {
    if s == "single" then Some(Single)
    else if s == "player1" then Some(Player1)
    else if s == "player2" then Some(Player2)
    else None
  }

  /** Every key's name parses back to that key. */
  lemma ParseKeyName(k: Key)
    ensures ParseKey(KeyName(k)) == Some(k)
  {
  }

  /** An object with one entry per participant, such as
      `{ single: 0, player1: 0, player2: 0 }`. */
  datatype PerKey<V> = PerKey(single: V, player1: V, player2: V)
  {
    function Get(k: Key): V
    {
      match k
      case Single => single
      case Player1 => player1
      case Player2 => player2
    }

    /** The object with the entry for `k` replaced by `v`. */
    function Set(k: Key, v: V): (r: PerKey<V>)
      ensures r.Get(k) == v
      ensures forall j: Key :: j != k ==> r.Get(j) == Get(j)
    {
      match k
      case Single => this.(single := v)
      case Player1 => this.(player1 := v)
      case Player2 => this.(player2 := v)
    }
  }

  /** The object with every entry set to `v`. */
  function Uniform<V>(v: V): (m: PerKey<V>)
    ensures forall k: Key :: m.Get(k) == v
  {
    PerKey(v, v, v)
  }
}
