/**
 * The bot's replies to chat messages (bot.py, `on_message`).
 *
 * The bot keeps one conversation history per channel in a process-wide
 * dictionary. Every message not written by the bot is appended to its
 * channel's history as a user turn. When the message mentions the bot, the
 * language model is asked for a completion on a system prompt followed by that
 * whole history. A non-empty completion is appended as an assistant turn and
 * sent back; otherwise a fixed apology is sent and the history is left as it is.
 *
 * The language model is an oracle: `Llm` maps the request to the reply it gets.
 */
module Chat {
  import opened Wrappers

  datatype Role = System | User | Assistant

  datatype Turn = Turn(role: Role, content: string)

  /** An inbound message: who wrote it, where, what it says, and whether it mentions the bot. */
  datatype Message = Message(author: nat, channel: nat, content: string, mentionsBot: bool)

  /** What the completion API returns: no choices, or a first choice whose text may be null. */
  datatype LlmReply = NoChoices | FirstChoice(text: Option<string>)

  type Llm = seq<Turn> -> LlmReply

  /** What the handler did: nothing (the bot's own message), record only, or reply. */
  datatype Outcome = Ignored | Recorded | Replied(request: seq<Turn>, text: string)

  type Histories = map<nat, seq<Turn>>

  const SystemPrompt: string := "Locator-Bot, tu es un Pokemon Motisma coincé dans un GPS dédié au jeu de carte a collectioner Pokemon pour trouver des Cup et des Challenges a proximité, sarcastique et aigri. Que ce soit sur les règles, les cartes rares ou les stratégies de jeu, ou les decrire les joueurs, n'oublie pas d'ajouter ta touche personnelle de sarcasme et de dédain."
  const EmptyReplyApology: string := "Sorry, I couldn't come up with a response."
  const NoChoicesApology: string := "No response from the AI."

  /** A channel's history; a channel never written to has none yet. */
  function History(h: Histories, channel: nat): seq<Turn> {
    if channel in h then h[channel] else []
  }

  /** The text Python treats as truthy: present and non-empty. */
  function Completion(reply: LlmReply): (r: Option<string>)
    ensures r.Some? ==> r.value != "" && reply == FirstChoice(Some(r.value))
    ensures r.None? ==> reply == NoChoices || reply == FirstChoice(None) || reply == FirstChoice(Some(""))
  {
    if reply.FirstChoice? && reply.text.Some? && reply.text.value != "" then reply.text else None
  }

  /** What the bot sends back when the model gave no usable completion. */
  function Apology(reply: LlmReply): (r: string)
    ensures reply.NoChoices? <==> r == NoChoicesApology
    ensures reply.FirstChoice? <==> r == EmptyReplyApology
  {
    if reply.NoChoices? then NoChoicesApology else EmptyReplyApology
  }

  datatype Handled = Handled(histories: Histories, outcome: Outcome)

  /** The effect of one inbound message on the histories, and what the bot does. */
  function Handle(h: Histories, msg: Message, bot: nat, llm: Llm): (r: Handled)
    // the bot's own messages change nothing
    ensures msg.author == bot ==> r == Handled(h, Ignored)
    // any other message is recorded in its own channel, and only there
    ensures msg.author != bot ==>
      r.histories.Keys == h.Keys + {msg.channel} &&
      (forall c :: c in h && c != msg.channel ==> r.histories[c] == h[c]) &&
      |History(h, msg.channel)| < |r.histories[msg.channel]| &&
      r.histories[msg.channel][..|History(h, msg.channel)| + 1] == History(h, msg.channel) + [Turn(User, msg.content)]
    // a reply happens exactly on a mention, with the system prompt and the whole updated history
    ensures r.outcome.Replied? <==> msg.author != bot && msg.mentionsBot
    ensures r.outcome.Recorded? <==> msg.author != bot && !msg.mentionsBot
    ensures r.outcome.Replied? ==>
      r.outcome.request == [Turn(System, SystemPrompt)] + History(h, msg.channel) + [Turn(User, msg.content)]
    // the assistant turn is kept exactly when the completion is usable, and it is what is sent
    ensures msg.author != bot ==>
      (|r.histories[msg.channel]| == |History(h, msg.channel)| + 2 <==>
        msg.mentionsBot && Completion(llm(r.outcome.request)).Some?) &&
      (|r.histories[msg.channel]| == |History(h, msg.channel)| + 1 <==>
        !(msg.mentionsBot && Completion(llm(r.outcome.request)).Some?))
    ensures r.outcome.Replied? && Completion(llm(r.outcome.request)).Some? ==>
      var t := Completion(llm(r.outcome.request)).value;
      r.outcome.text == t && r.histories[msg.channel][|History(h, msg.channel)| + 1] == Turn(Assistant, t)
    ensures r.outcome.Replied? && Completion(llm(r.outcome.request)).None? ==>
      r.outcome.text == Apology(llm(r.outcome.request))
  {
    if msg.author == bot then
      Handled(h, Ignored)
    else
      var c := msg.channel;
      var recorded := History(h, c) + [Turn(User, msg.content)];
      var h1 := h[c := recorded];
      if !msg.mentionsBot then
        Handled(h1, Recorded)
      else
        var request := [Turn(System, SystemPrompt)] + recorded;
        var reply := llm(request);
        match Completion(reply)
        case Some(t) =>
          assert (recorded + [Turn(Assistant, t)])[..|recorded|] == recorded;
          Handled(h1[c := recorded + [Turn(Assistant, t)]], Replied(request, t))
        case None =>
          assert recorded[..|recorded|] == recorded;
          Handled(h1, Replied(request, Apology(reply)))
  }

  /** The process-wide `message_histories` dictionary and the handler that updates it. */
  class Conversations {
    var histories: Histories

    constructor()
      ensures histories == map[]
    {
      histories := map[];
    }

    method OnMessage(msg: Message, bot: nat, llm: Llm) returns (outcome: Outcome)
      modifies this
      ensures Handled(histories, outcome) == Handle(old(histories), msg, bot, llm)
    {
      if msg.author == bot {
        return Ignored;
      }
      if msg.channel !in histories {
        histories := histories[msg.channel := []];
      }
      histories := histories[msg.channel := histories[msg.channel] + [Turn(User, msg.content)]];
      if !msg.mentionsBot {
        return Recorded;
      }
      var request := [Turn(System, SystemPrompt)] + histories[msg.channel];
      var reply := llm(request);
      if reply.FirstChoice? {
        var text := reply.text;
        if text.Some? && text.value != "" {
          histories := histories[msg.channel := histories[msg.channel] + [Turn(Assistant, text.value)]];
          outcome := Replied(request, text.value);
        } else {
          outcome := Replied(request, EmptyReplyApology);
        }
      } else {
        outcome := Replied(request, NoChoicesApology);
      }
    }
  }

  // ---------------------------------------------------------------------
  // Invariants of the stored histories
  // ---------------------------------------------------------------------

  /** The system prompt is never stored, only prepended to requests. */
  ghost predicate NoSystemTurns(h: Histories) {
    forall c, i :: c in h && 0 <= i < |h[c]| ==> h[c][i].role != System
  }

  /** Every assistant turn answers the user turn stored just before it. */
  ghost predicate AnswersFollowQuestions(h: Histories) {
    forall c, i :: c in h && 0 <= i < |h[c]| && h[c][i].role == Assistant ==> 0 < i && h[c][i - 1].role == User
  }

  lemma HandleKeepsNoSystemTurns(h: Histories, msg: Message, bot: nat, llm: Llm)
    requires NoSystemTurns(h)
    ensures NoSystemTurns(Handle(h, msg, bot, llm).histories)
  {
    var r := Handle(h, msg, bot, llm);
    if msg.author != bot {
      var old_ := History(h, msg.channel);
      var n := r.histories[msg.channel];
      forall i | 0 <= i < |n| ensures n[i].role != System {
        if i < |old_| {
          assert n[i] == n[..|old_| + 1][i];
        } else if i == |old_| {
          assert n[i] == n[..|old_| + 1][i];
        }
      }
    }
  }

  lemma HandleKeepsAnswersFollowQuestions(h: Histories, msg: Message, bot: nat, llm: Llm)
    requires AnswersFollowQuestions(h)
    ensures AnswersFollowQuestions(Handle(h, msg, bot, llm).histories)
  {
    var r := Handle(h, msg, bot, llm);
    if msg.author != bot {
      var old_ := History(h, msg.channel);
      var n := r.histories[msg.channel];
      var p := n[..|old_| + 1];
      forall i | 0 <= i < |n| && n[i].role == Assistant ensures 0 < i && n[i - 1].role == User {
        if i <= |old_| {
          assert n[i] == p[i];
          assert i < |old_|;
          assert n[i - 1] == p[i - 1];
        } else {
          assert n[i - 1] == p[|old_|];
        }
      }
    }
  }

  // ---------------------------------------------------------------------
  // A run of messages
  // ---------------------------------------------------------------------

  /** The histories after handling msgs in order. */
  function Replay(h: Histories, msgs: seq<Message>, bot: nat, llm: Llm): Histories
    decreases |msgs|
  {
    if msgs == [] then h else Replay(Handle(h, msgs[0], bot, llm).histories, msgs[1..], bot, llm)
  }

  /** How many of msgs another user wrote in channel c. */
  function UserMessagesIn(msgs: seq<Message>, bot: nat, c: nat): nat {
    if msgs == [] then 0
    else (if msgs[0].author != bot && msgs[0].channel == c then 1 else 0) + UserMessagesIn(msgs[1..], bot, c)
  }

  function CountRole(turns: seq<Turn>, role: Role): nat {
    if turns == [] then 0 else (if turns[0].role == role then 1 else 0) + CountRole(turns[1..], role)
  }

  lemma {:induction false} CountRoleConcat(a: seq<Turn>, b: seq<Turn>, role: Role)
    ensures CountRole(a + b, role) == CountRole(a, role) + CountRole(b, role)
  {
    if a != [] {
      CountRoleConcat(a[1..], b, role);
      assert (a + b)[0] == a[0] && (a + b)[1..] == a[1..] + b;
    } else {
      assert a + b == b;
    }
  }

  /** One message adds one user turn to the history of its own channel, none elsewhere. */
  lemma HandleCountsUserTurns(h: Histories, msg: Message, bot: nat, llm: Llm, c: nat)
    ensures CountRole(History(Handle(h, msg, bot, llm).histories, c), User)
      == CountRole(History(h, c), User) + (if msg.author != bot && msg.channel == c then 1 else 0)
  {
    var r := Handle(h, msg, bot, llm);
    if msg.author != bot && msg.channel == c {
      var old_ := History(h, c);
      var n := r.histories[c];
      var added := n[|old_| + 1..];
      assert n == n[..|old_| + 1] + added;
      CountRoleConcat(n[..|old_| + 1], added, User);
      CountRoleConcat(old_, [Turn(User, msg.content)], User);
      if |n| == |old_| + 2 {
        assert added == [n[|old_| + 1]];
      } else {
        assert added == [];
      }
    }
  }

  /**
   * The user turns of a channel count exactly the messages other users wrote
   * there: nothing is ever dropped or evicted.
   */
  lemma {:induction false} ReplayCountsUserTurns(h: Histories, msgs: seq<Message>, bot: nat, llm: Llm, c: nat)
    ensures CountRole(History(Replay(h, msgs, bot, llm), c), User)
      == CountRole(History(h, c), User) + UserMessagesIn(msgs, bot, c)
    decreases |msgs|
  {
    if msgs != [] {
      HandleCountsUserTurns(h, msgs[0], bot, llm, c);
      ReplayCountsUserTurns(Handle(h, msgs[0], bot, llm).histories, msgs[1..], bot, llm, c);
    }
  }

  /** Histories only grow: what was stored stays a prefix. */
  lemma {:induction false} ReplayExtends(h: Histories, msgs: seq<Message>, bot: nat, llm: Llm, c: nat)
    ensures History(h, c) <= History(Replay(h, msgs, bot, llm), c)
    decreases |msgs|
  {
    if msgs != [] {
      var h1 := Handle(h, msgs[0], bot, llm).histories;
      assert History(h, c) <= History(h1, c) by {
        if msgs[0].author != bot && msgs[0].channel == c {
          var p := History(h1, c)[..|History(h, c)| + 1];
          assert History(h, c) == p[..|History(h, c)|];
        }
      }
      ReplayExtends(h1, msgs[1..], bot, llm, c);
    }
  }

  /**
   * A mention in a channel with three stored turns sends one system turn and
   * four conversation turns, and a usable completion leaves five stored turns.
   */
  lemma MentionAfterThreeTurns(h: Histories, msg: Message, bot: nat, llm: Llm)
    requires msg.author != bot && msg.mentionsBot
    requires |History(h, msg.channel)| == 3
    ensures var r := Handle(h, msg, bot, llm);
      |r.outcome.request| == 5 &&
      r.outcome.request[0] == Turn(System, SystemPrompt) &&
      r.outcome.request[4] == Turn(User, msg.content) &&
      (Completion(llm(r.outcome.request)).Some? ==> |r.histories[msg.channel]| == 5)
  {
  }
}
