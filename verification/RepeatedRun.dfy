/** A run in which a purchase is told that it has been bought already, and nothing has been or is. */
module RepeatedRun {
  import opened Options
  import opened Ledger
  import opened Protocol
  import Keys

  const USER := "u"
  const KEY := "addon:v1:u:a"
  const ID := "1"

  const ASK := Buy(USER, DedicatedIp, KEY, false, false)

  function PendingRow(): Row {
    Row(USER, DedicatedIp, 2500, KEY, Pending, None, false)
  }

  /** The wallet is empty. */
  function Wallet(): Books {
    Books(map[USER := Account(0, false)], [])
  }

  function Before(calls: map<CallId, Call>): World {
    World(Wallet(), map[], [], map[], calls, map[], [], map[], map[USER := 0])
  }

  /** The first call has claimed the row; the calls stand at `p` and `q`. */
  function After(rows: map<RowId, Row>, p: Phase, q: Phase): World {
    World(Wallet(), rows, [], map[], map[0 := Call(ASK, p), 1 := Call(ASK, q)],
          map[ID := Birth(USER, DedicatedIp, 2500, KEY, 0)], [ID], map[], map[USER := 0])
  }

  function At(i: nat): World {
    var told := Finished(Repeated(ID));
    match i
    case 0 => Before(map[])
    case 1 => Before(map[0 := Call(ASK, Asking)])
    case 2 => Before(map[0 := Call(ASK, Asking), 1 := Call(ASK, Asking)])
    case 3 => After(map[ID := PendingRow()], Claimed(ID), Asking)
    case 4 => After(map[ID := PendingRow()], Claimed(ID), Duplicate)
    case 5 => After(map[ID := PendingRow()], Claimed(ID), told)
    case 6 => After(map[ID := PendingRow()], Ready(ID, false), told)
    case 7 => After(map[ID := PendingRow()], Declined(ID), told)
    case _ => After(map[], Finished(Released(ID)), told)
  }

  function Told(): seq<World> {
    seq(9, (i: nat) => At(i))
  }

  lemma Submits(i: nat)
    requires i < 2
    ensures StepBy(At(i), At(i + 1), i, Submit(ASK))
  {
    assert KEY[..9] == Keys.PURCHASE_PREFIX;
    assert At(i + 1).calls == At(i).calls[i := Call(ASK, Asking)];
  }

  lemma Claims()
    ensures StepBy(At(2), At(3), 0, Proceed(0, ID))
  {
    assert At(3).calls == At(2).calls[0 := Call(ASK, Claimed(ID))];
    assert Claim(At(2), At(3), 0, ID);
  }

  lemma FindsTaken(newId: RowId)
    ensures StepBy(At(3), At(4), 1, Proceed(0, newId))
  {
    assert Holds(At(3).rows, KEY, ID);
    assert At(4).calls == At(3).calls[1 := Call(ASK, Duplicate)];
    assert Claim(At(3), At(4), 1, newId);
  }

  lemma Reads()
    ensures ReadDuplicate(At(4), At(5), 1)
  {
    assert Holds(At(4).rows, KEY, ID);
    assert At(5).calls == At(4).calls[1 := Call(ASK, Finished(Repeated(ID)))];
  }

  lemma IsTold(newId: RowId)
    ensures StepBy(At(4), At(5), 1, Proceed(0, newId))
  {
    Reads();
  }

  lemma Passes()
    ensures StepBy(At(5), At(6), 0, Proceed(0, ""))
  {
    assert At(6).calls == At(5).calls[0 := Call(ASK, Ready(ID, false))];
    assert CheckPeriod(At(5), At(6), 0, ID, 0);
  }

  lemma IsDeclined()
    ensures StepBy(At(6), At(7), 0, Proceed(0, ""))
  {
    assert At(7).calls == At(6).calls[0 := Call(ASK, Declined(ID))];
    assert TakePayment(At(6), At(7), 0, ID, false);
  }

  lemma IsReleased()
    ensures StepBy(At(7), At(8), 0, Proceed(0, ""))
  {
    assert At(8).calls == At(7).calls[0 := Call(ASK, Finished(Released(ID)))];
    assert Drop(At(7), At(8), 0, ID);
  }

  lemma Steps(i: nat)
    requires i < 8
    ensures Next(At(i), At(i + 1))
  {
    match i
    case 0 => Submits(0);
    case 1 => Submits(1);
    case 2 => Claims();
    case 3 => FindsTaken("");
    case 4 => IsTold("");
    case 5 => Passes();
    case 6 => IsDeclined();
    case 7 => IsReleased();
  }

  /** The second call is told of the purchase of the first, which the empty wallet then declines. */
  lemma RepeatedOfNothing()
    ensures Run(Told()) && |Told()| == 9
    ensures ReadDuplicate(Told()[4], Told()[5], 1) && Told()[4].rows[ID].status == Pending
    ensures Told()[8].calls[1].pc == Finished(Repeated(ID)) && Told()[8].calls[0].pc == Finished(Released(ID))
    ensures Told()[8].rows == map[] && Told()[8].tickets == []
  {
    forall i: nat {:trigger NextAt(Told(), i)} | i < 8
      ensures NextAt(Told(), i)
    {
      Steps(i);
    }
    Reads();
  }
}
