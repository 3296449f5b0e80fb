/** The owner-only gate `is_owner_user` (main.py) on the cog management
    commands. */
module Owners {

  /** The users allowed to run owner-only commands. */
  const AllowedUserIds: seq<nat> := [1262439270488997991, 1012652131003682837, 1195288310189404251]

  /** Python's `in` on a list: a left-to-right scan. */
  method IsOwner(author: nat) returns (permitted: bool)
    ensures permitted <==> author in AllowedUserIds
  {
    permitted := false;
    var i := 0;
    while i < |AllowedUserIds|
      invariant 0 <= i <= |AllowedUserIds|
      invariant permitted <==> author in AllowedUserIds[..i]
      decreases |AllowedUserIds| - i
    {
      if AllowedUserIds[i] == author {
        permitted := true;
      }
      i := i + 1;
    }
    assert AllowedUserIds[..i] == AllowedUserIds;
  }
}
