/** Values shared by every part of the model: venues, orders, fills and the tolerances of the engine.
    Real numbers stand for finite floats; one symbol is traded throughout. */
module Domain {

  /** Quantities at or below this are flat on an exchange. */
  const FLAT_EPS: real := 0.000000001

  /** Quantities at or below this are zero for accounting. */
  const QTY_EPS: real := 0.000000000001

  /** A remaining quantity below this is not worth closing at once. */
  const DUST_QUANTITY: real := 0.00000001

  datatype Option<+T> = None | Some(value: T) {
    function GetOr(default: T): T {
      if Some? then value else default
    }
  }

  datatype Venue = Binance | Okx | Bybit | Bitget | Gate | Aster | Hyperliquid

  datatype Side = Buy | Sell {
    function Opposite(): Side {
      if Buy? then Sell else Buy
    }
  }

  function Max(a: real, b: real): real {
    if a < b then b else a
  }

  function Min(a: real, b: real): real {
    if b < a then b else a
  }

  function Abs(a: real): real {
    if a < 0.0 then -a else a
  }

  function Ceil(x: real): (n: int)
    ensures n as real - 1.0 < x <= n as real
  {
    -((-x).Floor)
  }

  datatype LegLabel = LongLeg | ShortLeg

  /** What an order is submitted for. */
  datatype Stage =
    | Exit(leg: LegLabel, chunk: nat)
    | ExitDuplicate(leg: LegLabel, attempt: nat)
    | CompensateAttempt(leg: LegLabel, attempt: nat)
    | CompensateHardStop(leg: LegLabel)
    | DuplicateRetry(of: Stage)

  /** Order ids and client ids. Ours are determined by position and stage (the hash is not modelled);
      NoId stands for a missing or empty id. */
  datatype Id = NoId | VenueId(number: nat) | ClientOrderId(positionId: string, stage: Stage)

  datatype OrderRequest = OrderRequest(
    venue: Venue,
    side: Side,
    quantity: real,
    reduceOnly: bool,
    price: real,
    clientOrderId: Id)

  /** A fill as an adapter reports it. None stands for a fee that is missing or not a number. */
  datatype OrderFill = OrderFill(
    quantity: real,
    price: real,
    orderId: Id,
    clientOrderId: Id,
    fee: Option<real>,
    filledAt: int)

  /** The keys under which an exchange can look an order up: its own id, or our client id. */
  datatype Identity = Identity(orderId: Id, clientOrderId: Id) {
    predicate Known() {
      orderId != NoId || clientOrderId != NoId
    }
  }

  function OrElse(id: Id, fallback: Id): Id {
    if id != NoId then id else fallback
  }

  /** Adds an identity unless it is empty or already present. */
  function Remember(identities: seq<Identity>, identity: Identity): (r: seq<Identity>)
    ensures identities <= r
    ensures forall i :: i in r <==> i in identities || (i == identity && identity.Known())
  {
    if identity.Known() && identity !in identities then identities + [identity] else identities
  }

  function RememberAll(identities: seq<Identity>, more: seq<Identity>): (r: seq<Identity>)
    ensures identities <= r
    ensures forall i :: i in r <==> i in identities || (i in more && i.Known())
    decreases |more|
  {
    if more == [] then identities
    else RememberAll(Remember(identities, more[0]), more[1..])
  }
}
