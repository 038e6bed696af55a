/**
  The order records: TopupInfo (src/TopupUtils.h), the text form that travels through the redis
  lists (src/TopupUtils.cpp, serialize_topupinfo and deserialize_topupinfo), and the order table
  as src/ChargeBusiness.cpp reads and writes it.
 */
module Orders {

  datatype OrderStatus = CREATE | UNDERWAY | SUCCESS | FAILED | CANCELED

  const NOTIFY_UNDONE := 0
  const NOTIFY_SUCCESS := 1
  const NOTIFY_FAIL := 2

  /** What never changes after creation. coopOrderNo is the key of the order table. */
  datatype Order = Order(
    coopId: string, tbOrderNo: string, coopOrderNo: string, tbOrderSnap: string, notifyUrl: string,
    userid: string, interfaceName: string, channels: seq<string>)

  /** A TopupInfo as a value. */
  datatype Info = Info(order: Order, status: OrderStatus, createTime: nat, lastOpTime: nat, notify: int)

  /** What serialize_topupinfo writes: no notify field. */
  datatype Ticket = Ticket(order: Order, status: OrderStatus, createTime: nat, lastOpTime: nat)

  /** The creation time is overwritten with the time of serialising. */
  function Serialized(i: Info, now: nat): Ticket {
    Ticket(i.order, i.status, now, i.lastOpTime)
  }

  /** A fresh TopupInfo is assumed to have notify 0. */
  function Deserialized(t: Ticket): Info {
    Info(t.order, t.status, t.createTime, t.lastOpTime, NOTIFY_UNDONE)
  }

  class TopupInfo {
    var order: Order
    var status: OrderStatus
    var createTime: nat
    var lastOpTime: nat
    var notify: int

    function View(): Info
      reads this
    {
      Info(order, status, createTime, lastOpTime, notify)
    }

    /** new TopupInfo, then deserialize_topupinfo */
    constructor Deserialize(t: Ticket)
      ensures View() == Deserialized(t)
    {
      order, status, createTime, lastOpTime, notify := t.order, t.status, t.createTime, t.lastOpTime, NOTIFY_UNDONE;
    }

    method Serialize(now: nat) returns (t: Ticket)
      ensures t == Serialized(View(), now)
      ensures Deserialized(t) == View().(createTime := now, notify := NOTIFY_UNDONE)
    {
      t := Ticket(order, status, now, lastOpTime);
    }
  }

  // ---------- the order table ----------

  datatype Row = Row(status: int, notify: int)

  /** How a statement and the commit in Finish end: only Committed changes the table. */
  datatype DbOutcome = Committed | Raised | CommitFailed

  function StatusCode(s: OrderStatus): int {
    match s
    case SUCCESS => 1
    case FAILED => 2
    case _ => 0
  }

  /** UPDATE ... WHERE SYSTEM_NO = key: nothing happens when there is no such row. */
  function RowsAfter(rows: map<string, Row>, i: Info, outcome: DbOutcome): map<string, Row> {
    if outcome.Committed? && i.order.coopOrderNo in rows
    then rows[i.order.coopOrderNo := Row(StatusCode(i.status), i.notify)]
    else rows
  }

  class OrderTable {
    var rows: map<string, Row>

    constructor ()
      ensures rows == map[]
    {
      rows := map[];
    }

    method UpdateOrderStatus(info: TopupInfo, outcome: DbOutcome) returns (ret: int)
      modifies this
      ensures rows == RowsAfter(old(rows), info.View(), outcome)
      ensures rows == if outcome != Committed || info.order.coopOrderNo !in old(rows) then old(rows)
                      else old(rows)[info.order.coopOrderNo :=
                        Row(if info.status == SUCCESS then 1 else if info.status == FAILED then 2 else 0, info.notify)]
      ensures ret == if outcome.Raised? then -1 else 0
    {
      ret := 0;
      var status := 0;
      if info.status == SUCCESS {
        status := 1;
      } else if info.status == FAILED {
        status := 2;
      }
      var notify := info.notify;
      if outcome.Raised? {
        ret := -1;
      } else if outcome.Committed? && info.order.coopOrderNo in rows {
        rows := rows[info.order.coopOrderNo := Row(status, notify)];
      }
    }

    /** 0 when there is no row, and when the statement raises. */
    method GetNotifyStatus(sysNo: string, readable: bool) returns (notify: int)
      ensures notify == if readable && sysNo in rows then rows[sysNo].notify else 0
    {
      notify := 0;
      if readable && sysNo in rows {
        notify := rows[sysNo].notify;
      }
    }
  }
}
