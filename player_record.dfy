/** The player record that the game reads and writes. */
module PlayerRecord {
  import opened Wrappers
  import opened Numbers

  /** The table the object mapper stores `PlayerInfo` in: the class is
      annotated with `nameof(DynamoDBForUnity)`. */
  const PlayerTable: string := "DynamoDBForUnity"

  /** `UserId` is the hash key. `initials == None` is the C# `null` that a
      record created with only its `UserId` carries until something fills it;
      `highScore` then holds the C# default 0. */
  datatype PlayerInfo = PlayerInfo(userId: string, initials: Option<string>, highScore: Int32)

  /** The record the manager creates at start-up, before any fetch. */
  function NewPlayer(userId: string): PlayerInfo
  {
    PlayerInfo(userId, None, 0)
  }
}
