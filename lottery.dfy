/**
 * The lottery canister: tickets and draws, each family with its own id
 * counter and its own stable map from id to record.
 */
module Lottery {
  import opened Outcomes
  import KeyOrder

  newtype u32 = x: int | 0 <= x < 0x1_0000_0000

  datatype LotteryTicket = LotteryTicket(
    id: nat,
    owner: string,
    numbers: seq<u32>,
    createdAt: nat,
    updatedAt: Option<nat>)

  datatype LotteryDraw = LotteryDraw(
    id: nat,
    winningNumbers: seq<u32>,
    drawTime: nat,
    participants: seq<string>)

  datatype LotteryError = NotFound(msg: string) | InvalidNumbers(msg: string)

  /**
   * The check made before a ticket is sold or a draw held: it rejects a list
   * whose length is not 6 or that holds a number above 49 or equal to 0.
   * Repeated numbers are not rejected.
   */
  function ValidNumbers(numbers: seq<u32>): (ok: bool)
    ensures ok <==> |numbers| == 6 && forall i :: 0 <= i < |numbers| ==> 1 <= numbers[i] <= 49
  {
    !(|numbers| != 6 || exists i :: 0 <= i < |numbers| && (numbers[i] > 49 || numbers[i] == 0))
  }

  lemma NumbersExamples()
    ensures ValidNumbers([1, 2, 3, 4, 5, 6])
    ensures ValidNumbers([1, 1, 1, 1, 1, 1])
    ensures !ValidNumbers([0, 2, 3, 4, 5, 6])
    ensures !ValidNumbers([1, 2, 3, 4, 50, 6])
    ensures !ValidNumbers([1, 2, 3, 4, 5])
  {
    assert [0, 2, 3, 4, 5, 6][0] == 0 as u32;
    assert [1, 2, 3, 4, 50, 6][4] == 50 as u32;
  }

  /** Decimal notation of an id, as `format!("{}", id)` writes it. */
  function DecimalString(n: nat): (s: string)
    ensures |s| >= 1
    ensures forall i :: 0 <= i < |s| ==> '0' <= s[i] <= '9'
    ensures DecimalValue(s) == n
    ensures |s| == 1 || s[0] != '0'
  {
    if n < 10 then [Digit(n)]
    else DecimalString(n / 10) + [Digit(n % 10)]
  }

  function Digit(d: nat): (c: char)
    requires d < 10
    ensures '0' <= c <= '9' && (c as int) - ('0' as int) == d
  {
    "0123456789"[d]
  }

  /** The number a string of decimal digits denotes. */
  ghost function DecimalValue(s: string): int {
    if s == [] then 0
    else DecimalValue(s[..|s| - 1]) * 10 + ((s[|s| - 1] as int) - ('0' as int))
  }

  function TicketNotFound(id: nat): string {
    "Lottery ticket with id=" + DecimalString(id) + " not found"
  }

  function DrawNotFound(id: nat): string {
    "Lottery draw with id=" + DecimalString(id) + " not found"
  }

  /** Records listed in ascending id order. */
  ghost predicate TicketIdsAscending(ts: seq<LotteryTicket>) {
    forall i, j :: 0 <= i < j < |ts| ==> ts[i].id < ts[j].id
  }

  ghost predicate DrawIdsAscending(ds: seq<LotteryDraw>) {
    forall i, j :: 0 <= i < j < |ds| ==> ds[i].id < ds[j].id
  }

  /**
   * `LOTTERY_TICKET_ID_COUNTER`, `LOTTERY_DRAW_ID_COUNTER`,
   * `LOTTERY_TICKET_STORAGE` and `LOTTERY_DRAW_STORAGE`.
   */
  class LotteryStore {
    var ticketCounter: nat
    var drawCounter: nat
    var tickets: map<nat, LotteryTicket>
    var draws: map<nat, LotteryDraw>

    /** Every record is stored under its own id, which is below its family's counter. */
    ghost predicate Valid()
      reads this
    {
      (forall k :: k in tickets ==> tickets[k].id == k && k < ticketCounter) &&
      (forall k :: k in draws ==> draws[k].id == k && k < drawCounter)
    }

    constructor ()
      ensures Valid()
      ensures ticketCounter == 0 && drawCounter == 0
      ensures tickets == map[] && draws == map[]
    {
      ticketCounter, drawCounter := 0, 0;
      tickets, draws := map[], map[];
    }

    /** Hands out the next ticket id: the counter's previous value, after which the counter is one higher. */
    method NextTicketId() returns (id: nat)
      modifies this`ticketCounter
      ensures id == old(ticketCounter) && ticketCounter == old(ticketCounter) + 1
    {
      id := ticketCounter;
      ticketCounter := ticketCounter + 1;
    }

    /** Hands out the next draw id: the counter's previous value, after which the counter is one higher. */
    method NextDrawId() returns (id: nat)
      modifies this`drawCounter
      ensures id == old(drawCounter) && drawCounter == old(drawCounter) + 1
    {
      id := drawCounter;
      drawCounter := drawCounter + 1;
    }

    /** `buy_lottery_ticket`: checks the numbers, then stores a new ticket under a fresh id. */
    method BuyLotteryTicket(owner: string, numbers: seq<u32>, now: nat) returns (r: Result<LotteryTicket, LotteryError>)
      requires Valid()
      modifies this
      ensures Valid()
      ensures !ValidNumbers(numbers) ==> r == Err(InvalidNumbers("Invalid lottery numbers"))
      ensures !ValidNumbers(numbers) ==> ticketCounter == old(ticketCounter) && tickets == old(tickets)
      ensures ValidNumbers(numbers) ==> r == Ok(LotteryTicket(old(ticketCounter), owner, numbers, now, None))
      ensures ValidNumbers(numbers) ==> ticketCounter == old(ticketCounter) + 1
      ensures ValidNumbers(numbers) ==> tickets == old(tickets)[old(ticketCounter) := r.value]
      ensures drawCounter == old(drawCounter) && draws == old(draws)
    {
      if !ValidNumbers(numbers) {
        return Err(InvalidNumbers("Invalid lottery numbers"));
      }
      var id := NextTicketId();
      var ticket := LotteryTicket(id, owner, numbers, now, None);
      tickets := tickets[id := ticket];
      r := Ok(ticket);
    }

    /** `check_lottery_ticket`: the stored ticket, or `NotFound`; nothing changes. */
    function CheckLotteryTicket(id: nat): (r: Result<LotteryTicket, LotteryError>)
      reads this
      requires Valid()
      ensures r.Ok? <==> id in tickets
      ensures r.Ok? ==> r.value == tickets[id] && r.value.id == id
      ensures r.Err? ==> r.error == NotFound(TicketNotFound(id))
    {
      if id in tickets then Ok(tickets[id]) else Err(NotFound(TicketNotFound(id)))
    }

    /** The draw lookup of `participate_in_lottery_draw`. */
    function LookupDraw(id: nat): (r: Result<LotteryDraw, LotteryError>)
      reads this
      requires Valid()
      ensures r.Ok? <==> id in draws
      ensures r.Ok? ==> r.value == draws[id] && r.value.id == id
      ensures r.Err? ==> r.error == NotFound(DrawNotFound(id))
    {
      if id in draws then Ok(draws[id]) else Err(NotFound(DrawNotFound(id)))
    }

    /** `conduct_lottery_draw`: checks the winning numbers, then stores a new draw with no participants. */
    method ConductLotteryDraw(winningNumbers: seq<u32>, now: nat) returns (r: Result<LotteryDraw, LotteryError>)
      requires Valid()
      modifies this
      ensures Valid()
      ensures !ValidNumbers(winningNumbers) ==> r == Err(InvalidNumbers("Invalid winning numbers"))
      ensures !ValidNumbers(winningNumbers) ==> drawCounter == old(drawCounter) && draws == old(draws)
      ensures ValidNumbers(winningNumbers) ==> r == Ok(LotteryDraw(old(drawCounter), winningNumbers, now, []))
      ensures ValidNumbers(winningNumbers) ==> drawCounter == old(drawCounter) + 1
      ensures ValidNumbers(winningNumbers) ==> draws == old(draws)[old(drawCounter) := r.value]
      ensures ticketCounter == old(ticketCounter) && tickets == old(tickets)
    {
      if !ValidNumbers(winningNumbers) {
        return Err(InvalidNumbers("Invalid winning numbers"));
      }
      var id := NextDrawId();
      var draw := LotteryDraw(id, winningNumbers, now, []);
      draws := draws[id := draw];
      r := Ok(draw);
    }

    /**
     * `participate_in_lottery_draw`: appends the owner of the ticket to the
     * draw's participants, with no check for an owner already there.
     */
    method ParticipateInLotteryDraw(ticketId: nat, drawId: nat) returns (r: Result<LotteryDraw, LotteryError>)
      requires Valid()
      modifies this
      ensures Valid()
      ensures r.Ok? <==> ticketId in old(tickets) && drawId in old(draws)
      ensures ticketId !in old(tickets) ==> r == Err(NotFound(TicketNotFound(ticketId)))
      ensures ticketId in old(tickets) && drawId !in old(draws) ==> r == Err(NotFound(DrawNotFound(drawId)))
      ensures r.Err? ==> draws == old(draws)
      ensures r.Ok? ==> r.value == old(draws)[drawId].(participants := old(draws)[drawId].participants + [old(tickets)[ticketId].owner])
      ensures r.Ok? ==> draws == old(draws)[drawId := r.value]
      ensures tickets == old(tickets)
      ensures ticketCounter == old(ticketCounter) && drawCounter == old(drawCounter)
    {
      var found := CheckLotteryTicket(ticketId);
      if found.Err? {
        return Err(found.error);
      }
      var ticket := found.value;
      var lookup := LookupDraw(drawId);
      if lookup.Err? {
        return Err(lookup.error);
      }
      var draw := lookup.value;
      draw := draw.(participants := draw.participants + [ticket.owner]);
      draws := draws[drawId := draw];
      r := Ok(draw);
    }

    /** `get_all_lottery_tickets`: every ticket in ascending id order, or `NotFound` when there is none. */
    function AllLotteryTickets(): (r: Result<seq<LotteryTicket>, LotteryError>)
      reads this
      requires Valid()
      ensures r.Err? <==> tickets == map[]
      ensures r.Err? ==> r.error == NotFound("No lottery tickets found")
      ensures r.Ok? ==> |r.value| == |tickets| && TicketIdsAscending(r.value)
      ensures r.Ok? ==> forall t :: t in r.value <==> t in tickets.Values
    {
      KeyOrder.ValuesBelowComplete(tickets, ticketCounter);
      var ks := KeyOrder.KeysBelow(tickets, ticketCounter);
      var ts := KeyOrder.ValuesBelow(tickets, ticketCounter);
      assert forall i :: 0 <= i < |ts| ==> ts[i].id == ks[i];
      if |ts| == 0 then Err(NotFound("No lottery tickets found")) else Ok(ts)
    }

    /** `get_all_lottery_draws`: every draw in ascending id order, or `NotFound` when there is none. */
    function AllLotteryDraws(): (r: Result<seq<LotteryDraw>, LotteryError>)
      reads this
      requires Valid()
      ensures r.Err? <==> draws == map[]
      ensures r.Err? ==> r.error == NotFound("No lottery draws found")
      ensures r.Ok? ==> |r.value| == |draws| && DrawIdsAscending(r.value)
      ensures r.Ok? ==> forall d :: d in r.value <==> d in draws.Values
    {
      KeyOrder.ValuesBelowComplete(draws, drawCounter);
      var ks := KeyOrder.KeysBelow(draws, drawCounter);
      var ds := KeyOrder.ValuesBelow(draws, drawCounter);
      assert forall i :: 0 <= i < |ds| ==> ds[i].id == ks[i];
      if |ds| == 0 then Err(NotFound("No lottery draws found")) else Ok(ds)
    }
  }

  /**
   * A ticket that was just bought is found again by its id, and a draw that
   * was just held lists no participants until a ticket joins it.
   */
  method BuyThenJoin(s: LotteryStore, owner: string, numbers: seq<u32>, now: nat)
    returns (bought: Result<LotteryTicket, LotteryError>, checked: Result<LotteryTicket, LotteryError>, joined: Result<LotteryDraw, LotteryError>)
    requires s.Valid()
    requires ValidNumbers(numbers)
    modifies s
    ensures s.Valid()
    ensures bought.Ok? && checked == bought
    ensures joined.Ok? && joined.value.participants == [owner]
  {
    bought := s.BuyLotteryTicket(owner, numbers, now);
    checked := s.CheckLotteryTicket(bought.value.id);
    var held := s.ConductLotteryDraw(numbers, now);
    joined := s.ParticipateInLotteryDraw(bought.value.id, held.value.id);
  }
}
