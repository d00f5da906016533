/**
  The password-history rule: which earlier passwords a new one is compared with, and which rows
  trimming keeps (src/modules/auth/services/auth.service.ts). A history is listed oldest first.
 */
module PasswordHistory {

  /** A password, up to what bcrypt's compare can tell apart. */
  type Password = nat

  datatype PasswordHash = Bcrypt(of: Password)

  predicate Compare(password: Password, hash: PasswordHash) {
    hash.of == password
  }

  /** The newest entries findMany returns with take: limit. */
  function Newest(history: seq<PasswordHash>, limit: int): seq<PasswordHash>
    requires limit >= 0
  {
    if |history| <= limit then history else history[|history| - limit..]
  }

  predicate RecentlyUsed(history: seq<PasswordHash>, limit: int, password: Password) {
    limit > 0 && exists i :: 0 <= i < |Newest(history, limit)| && Compare(password, Newest(history, limit)[i])
  }

  /** trimPasswordHistory: with a limit of zero or less nothing is deleted. */
  function Trim(history: seq<PasswordHash>, limit: int): seq<PasswordHash> {
    if limit <= 0 then history else Newest(history, limit)
  }

  /** Among any limit + 1 consecutive passwords no later one compares equal to an earlier one. */
  ghost predicate NoRepeatInWindow(all: seq<PasswordHash>, limit: int) {
    forall i, j :: 0 <= i < j < |all| && j - i <= limit ==> !Compare(all[j].of, all[i])
  }

  /** Trimming after every change keeps exactly the newest entries of the whole history. */
  lemma TrimOfTrimmed(all: seq<PasswordHash>, limit: int, hash: PasswordHash)
    ensures Trim(Trim(all, limit) + [hash], limit) == Trim(all + [hash], limit)
  {
    if 0 < limit < |all| {
      assert (all[|all| - limit..] + [hash])[1..] == (all + [hash])[|all| + 1 - limit..];
    }
  }

  lemma NewestOfTrimmed(all: seq<PasswordHash>, limit: int)
    requires limit > 0
    ensures Newest(Trim(all, limit), limit) == Newest(all, limit)
  {
  }

  lemma NewestAt(all: seq<PasswordHash>, limit: int, i: nat)
    requires limit > 0 && i < |Newest(all, limit)|
    ensures Newest(all, limit)[i] == all[|all| - |Newest(all, limit)| + i]
  {
  }

  ghost predicate SetWithin(all: seq<PasswordHash>, limit: int, password: Password) {
    exists i :: 0 <= i < |all| && |all| - limit <= i && Compare(password, all[i])
  }

  lemma RecentIsWithin(all: seq<PasswordHash>, limit: int, password: Password, i: nat)
    requires limit > 0 && i < |Newest(all, limit)| && Compare(password, Newest(all, limit)[i])
    ensures SetWithin(all, limit, password)
  {
    NewestAt(all, limit, i);
    var j := |all| - |Newest(all, limit)| + i;
    assert Compare(password, all[j]);
  }

  lemma WithinIsRecent(all: seq<PasswordHash>, limit: int, password: Password, i: nat)
    requires limit > 0 && i < |all| && |all| - limit <= i && Compare(password, all[i])
    ensures RecentlyUsed(all, limit, password)
  {
    var j := i - (|all| - |Newest(all, limit)|);
    NewestAt(all, limit, j);
    assert Compare(password, Newest(all, limit)[j]);
  }

  lemma RecentOfTrimmed(all: seq<PasswordHash>, limit: int, password: Password)
    ensures RecentlyUsed(Trim(all, limit), limit, password) == RecentlyUsed(all, limit, password)
  {
    if limit > 0 { NewestOfTrimmed(all, limit); }
  }

  /** Checking only the kept rows refuses exactly the passwords among the newest limit ever set. */
  lemma CheckSeesTheWindow(all: seq<PasswordHash>, limit: int, password: Password)
    ensures RecentlyUsed(Trim(all, limit), limit, password) <==> SetWithin(all, limit, password)
  {
    RecentOfTrimmed(all, limit, password);
    if RecentlyUsed(all, limit, password) {
      var i :| 0 <= i < |Newest(all, limit)| && Compare(password, Newest(all, limit)[i]);
      RecentIsWithin(all, limit, password, i);
    }
    if SetWithin(all, limit, password) {
      var i :| 0 <= i < |all| && |all| - limit <= i && Compare(password, all[i]);
      WithinIsRecent(all, limit, password, i);
    }
  }

  lemma AcceptedPasswordKeepsWindow(all: seq<PasswordHash>, limit: int, password: Password)
    requires NoRepeatInWindow(all, limit) && !RecentlyUsed(Trim(all, limit), limit, password)
    ensures NoRepeatInWindow(all + [Bcrypt(password)], limit)
  {
    CheckSeesTheWindow(all, limit, password);
  }

  /** The comparison loop of ensureNotRecentlyUsed, over the rows newest first. */
  method EnsureNotRecentlyUsed(history: seq<PasswordHash>, limit: int, password: Password) returns (refused: bool)
    ensures refused <==> RecentlyUsed(history, limit, password)
  {
    if limit <= 0 {
      return false;
    }
    var rows := Newest(history, limit);
    var i := |rows|;
    while i > 0
      invariant 0 <= i <= |rows|
      invariant forall j :: i <= j < |rows| ==> !Compare(password, rows[j])
    {
      i := i - 1;
      if Compare(password, rows[i]) {
        return true;
      }
    }
    return false;
  }
}
