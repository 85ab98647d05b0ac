/** A user playing the game. */
module Players {
  import opened Optional

  /** What a client is shown of a player. */
  datatype PlayerView = PlayerView(name: string, id: string, gameId: Option<string>, piece: string)

  class Player {
    /** The user-chosen display name; never changes. */
    const name: string

    /** The connection id that identifies the player; never changes. */
    const id: string

    /** The game the player is in; None until a game links the player. */
    var gameId: Option<string>

    /** The piece that stands for the player on the board; "" until a game assigns one. */
    var piece: string

    constructor(name: string, id: string)
      ensures this.name == name && this.id == id
      ensures gameId == None && piece == ""
    {
      this.name := name;
      this.id := id;
      gameId := None;
      piece := "";
    }

    /**
     * Equality of players: the other object is a player with the same id and
     * the same name.  It reads no mutable field, so a player's game id and
     * piece never affect it, and it is false for null.
     */
    predicate Equals(obj: object?) {
      obj is Player && (obj as Player).id == id && (obj as Player).name == name
    }

    function View(): PlayerView
      reads this
    {
      PlayerView(name, id, gameId, piece)
    }
  }

  /** Player equality is an equivalence relation. */
  lemma EqualsIsEquivalence(p: Player, q: Player, r: Player)
    ensures p.Equals(p)
    ensures p.Equals(q) ==> q.Equals(p)
    ensures p.Equals(q) && q.Equals(r) ==> p.Equals(r)
  {
  }
}
