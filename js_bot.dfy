/** The state index.js keeps between events: the chat countdown messages go
    to (`let chatId`), and the two dates fixed at start-up. */
module JsBot {
  import opened CountdownTypes
  import opened JsCountdown

  /** Messages the bot sends, with their text reduced to what it carries.
      `to` is `None` when no chat has been set; the Telegram call then fails
      and the failure is only logged. */
  datatype Outgoing =
    | Greeting(chat: int)
    | ChatIdSet(chat: int)
    | CountdownMessage(to: Option<int>, countdown: Countdown)

  class CountdownBot {
    var chatId: Option<int>
    const armyStartDate: int
    const armyEndDate: int

    /** Module start-up: `chatId` from CHAT_ID, the start date from
        ARMY_START_DATE, and the end date moved forward by the service
        length (365 when ARMY_SERVICE_LENGTH_DAYS is unset). */
    constructor (envChatId: Option<int>, startDate: int, envServiceDays: Option<int>, hostOffset: int)
      ensures chatId == envChatId
      ensures armyStartDate == startDate
      ensures armyEndDate == startDate + ServiceLength(envServiceDays) * MS_PER_DAY
    {
      var end := ArmyEndDate(startDate, ServiceLength(envServiceDays), hostOffset);
      chatId := envChatId;
      armyStartDate := startDate;
      armyEndDate := end.time;
    }

    /** `sendCountdownMessage()` with the clock reads `now`: the countdown
        for the current phase, addressed to the chat assigned last. */
    function SendCountdownMessage(now: ClockReads): (m: Outgoing)
      reads this
      ensures m.CountdownMessage? && m.to == chatId
      ensures m.countdown.phase == ToArmy <==> now.atPhase < armyStartDate
      ensures var target := if now.atPhase < armyStartDate then armyStartDate else armyEndDate;
        (m.countdown.days - 1) * MS_PER_DAY < target - now.atDiff <= m.countdown.days * MS_PER_DAY
    {
      CountdownMessage(chatId, SelectCountdown(armyStartDate, armyEndDate, now))
    }

    /** The start-up send: only when a chat id was configured. */
    function StartupMessages(now: ClockReads): (ms: seq<Outgoing>)
      reads this
      ensures |ms| <= 1
      ensures ms != [] <==> chatId.Some?
      ensures forall k :: 0 <= k < |ms| ==> ms[k].CountdownMessage? && ms[k].to == chatId
      ensures forall k :: 0 <= k < |ms| ==> ms[k].countdown == SelectCountdown(armyStartDate, armyEndDate, now)
    {
      if chatId.Some? then [SendCountdownMessage(now)] else []
    }

    /** 'new_chat_members': when the bot itself is among the new members,
        the chat becomes the target, gets a greeting and a countdown.
        `botInfo` is `bot.botInfo`; when it is unset, reading `botInfo.id`
        throws (or `some` finds no member), and the handler neither assigns
        nor sends. */
    method OnNewChatMembers(chat: int, memberIds: seq<int>, botInfo: Option<int>, now: ClockReads)
      returns (sent: seq<Outgoing>)
      modifies this
      ensures botInfo.Some? && botInfo.value in memberIds ==> chatId == Some(chat)
      ensures !(botInfo.Some? && botInfo.value in memberIds) ==> chatId == old(chatId) && sent == []
      ensures botInfo.Some? && botInfo.value in memberIds ==>
        sent == [Greeting(chat), CountdownMessage(Some(chat), SelectCountdown(armyStartDate, armyEndDate, now))]
    {
      if botInfo.Some? && botInfo.value in memberIds {
        chatId := Some(chat);
        sent := [Greeting(chat), SendCountdownMessage(now)];
      } else {
        sent := [];
      }
    }

    /** The /setchat command: the issuing chat becomes the target, gets an
        acknowledgement and a countdown. */
    method SetChat(chat: int, now: ClockReads) returns (sent: seq<Outgoing>)
      modifies this
      ensures chatId == Some(chat)
      ensures sent == [ChatIdSet(chat), CountdownMessage(Some(chat), SelectCountdown(armyStartDate, armyEndDate, now))]
    {
      chatId := Some(chat);
      sent := [ChatIdSet(chat), SendCountdownMessage(now)];
    }
  }

  /** Last writer wins: whatever CHAT_ID said at start-up, after the bot is
      added to chat `added` and then /setchat is issued in chat `setChat`, the
      next countdown (daily rule or /countdown) goes to `setChat`. */
  method LastWriterWins(envChatId: Option<int>, added: int, setChat: int, botId: int, now: ClockReads)
    returns (next: Outgoing)
    ensures next.CountdownMessage? && next.to == Some(setChat)
  {
    var bot := new CountdownBot(envChatId, 0, None, 0);
    var _ := bot.OnNewChatMembers(added, [botId], Some(botId), now);
    assert bot.chatId == Some(added);
    var _ := bot.SetChat(setChat, now);
    next := bot.SendCountdownMessage(now);
  }
}
