/**
 * The chat panel (components/ChatInterface.tsx): the message list, the input line and the
 * loading flag. A send is one step that appends the user's message and an empty reply,
 * folds the streamed pieces into that reply by its id, and appends a fallback message when
 * the stream fails. Message ids come from the clock in the component; here they are
 * parameters, and nothing below relies on the component making them distinct.
 */
module Chat {
  import opened Wrappers
  import opened Strings
  import opened Types

  const ConnectionErrorText := "Erro de conexão com o Agente. Tente novamente."

  /** The greeting of a fresh panel, naming the repository or "Local". */
  function WelcomeMessage(repoName: string): Message
  {
    Message("welcome", Model, "Olá! Conectado ao repositório " + (if repoName != "" then repoName else "Local")
                              + ". Vejo a estrutura de arquivos. Abra os arquivos que deseja que eu analise profundamente.")
  }

  /** The greeting that replaces the conversation when the connected repository changes. */
  function RepoGreeting(repoName: string): Message
  {
    Message("welcome-repo", Model, "Ambiente reconfigurado para " + repoName + ". Estou pronto para ajudar com o código.")
  }

  /** The messages after the repository-change effect has run for `repoName`: a non-empty name restarts the conversation. */
  function AfterRepoChange(messages: seq<Message>, repoName: string): seq<Message>
  {
    if repoName != "" then [RepoGreeting(repoName)] else messages
  }

  /** A send goes ahead only for input with some non-blank character while no reply is streaming. */
  predicate Accepts(input: string, isLoading: bool)
  {
    Trim(input) != "" && !isLoading
  }

  /** Blank input is exactly input made of white space only. */
  lemma AcceptsSpec(input: string, isLoading: bool)
    ensures Accepts(input, isLoading) <==> !isLoading && !AllWhiteSpace(input)
    ensures !Accepts(" \t\n", false)
  {
    TrimEmptyIff(input);
    assert AllWhiteSpace(" \t\n") by {
      assert IsWhiteSpace(' ') && IsWhiteSpace('\t') && IsWhiteSpace('\n');
    }
    TrimEmptyIff(" \t\n");
  }

  /** Every message with the id gets `text` as its content; everything else is kept. */
  function ReplaceContent(messages: seq<Message>, id: string, text: string): seq<Message>
  {
    seq(|messages|, i requires 0 <= i < |messages| => if messages[i].id == id then messages[i].(content := text) else messages[i])
  }

  /** Replacing keeps count, order, ids and roles, and a later replacement overrides an earlier one. */
  lemma ReplaceContentSpec(messages: seq<Message>, id: string, first: string, text: string)
    ensures |ReplaceContent(messages, id, text)| == |messages|
    ensures forall i :: 0 <= i < |messages| ==>
      ReplaceContent(messages, id, text)[i].id == messages[i].id && ReplaceContent(messages, id, text)[i].role == messages[i].role
    ensures ReplaceContent(ReplaceContent(messages, id, first), id, text) == ReplaceContent(messages, id, text)
    ensures (forall i :: 0 <= i < |messages| ==> messages[i].id != id) ==> ReplaceContent(messages, id, text) == messages
  {
  }

  /** Appended messages are untouched by a replacement for an id they do not carry, and the prefix is replaced on its own. */
  lemma ReplaceContentAppend(messages: seq<Message>, more: seq<Message>, id: string, text: string)
    ensures ReplaceContent(messages + more, id, text) == ReplaceContent(messages, id, text) + ReplaceContent(more, id, text)
  {
  }

  /** The empty model reply a send appends before the first piece arrives. */
  function Placeholder(replyId: string): Message
  {
    Message(replyId, Model, "")
  }

  /** The messages once a send is accepted: the user's message with the untrimmed input, then the empty reply. */
  function Opened(before: seq<Message>, input: string, userId: string, replyId: string): seq<Message>
  {
    before + [Message(userId, User, input), Placeholder(replyId)]
  }

  /** The messages after the first `received` pieces of the reply have been folded in. */
  function Streaming(started: seq<Message>, replyId: string, received: seq<string>): seq<Message>
  {
    if received == [] then started else ReplaceContent(started, replyId, ConcatAll(received))
  }

  /** The messages at the end of a turn: the streamed reply, then the fallback message if the stream failed. */
  function TurnMessages(before: seq<Message>, input: string, userId: string, replyId: string,
                        pieces: seq<string>, failed: bool, errorId: string): seq<Message>
  {
    Streaming(Opened(before, input, userId, replyId), replyId, pieces)
    + (if failed then [Message(errorId, Model, ConnectionErrorText)] else [])
  }

  /**
   * With a reply id no earlier message carries: the turn adds two messages (three on failure),
   * leaves every earlier message as it was, keeps the user's text as typed, and the reply holds
   * all the pieces in order; on failure the reply is kept as far as it got and the fallback follows.
   */
  lemma TurnSpec(before: seq<Message>, input: string, userId: string, replyId: string,
                 pieces: seq<string>, failed: bool, errorId: string)
    requires forall i :: 0 <= i < |before| ==> before[i].id != replyId
    requires userId != replyId
    ensures var after := TurnMessages(before, input, userId, replyId, pieces, failed, errorId);
      && |after| == |before| + 2 + (if failed then 1 else 0)
      && after[..|before|] == before
      && after[|before|] == Message(userId, User, input)
      && after[|before| + 1] == Message(replyId, Model, ConcatAll(pieces))
      && (failed ==> after[|before| + 2] == Message(errorId, Model, ConnectionErrorText))
  {
    var started := Opened(before, input, userId, replyId);
    var streamed := Streaming(started, replyId, pieces);
    if pieces != [] {
      ReplaceContentAppend(before, [Message(userId, User, input), Placeholder(replyId)], replyId, ConcatAll(pieces));
      ReplaceContentSpec(before, replyId, "", ConcatAll(pieces));
      assert streamed == before + [Message(userId, User, input), Message(replyId, Model, ConcatAll(pieces))];
    }
    var after := TurnMessages(before, input, userId, replyId, pieces, failed, errorId);
    assert after[..|before|] == streamed[..|before|];
  }

  /** The reply only grows: what it shows after `i` pieces is a prefix of what it shows after `j >= i` pieces. */
  lemma ReplyGrowsByPrefix(pieces: seq<string>, i: nat, j: nat)
    requires i <= j <= |pieces|
    ensures StartsWith(ConcatAll(pieces[..j]), ConcatAll(pieces[..i]))
  {
    assert pieces[..j] == pieces[..i] + pieces[i..j];
    ConcatAllAppend(pieces[..i], pieces[i..j]);
  }

  class ChatPanel {
    var messages: seq<Message>
    var input: string
    var isLoading: bool
    /** The repository name of the last render, against which the reset effect compares. */
    var repoName: string

    /** A fresh panel: the welcome message, replaced by the repository greeting when a repository is connected. */
    constructor (name: string)
      ensures messages == AfterRepoChange([WelcomeMessage(name)], name)
      ensures |messages| == 1 && messages[0].role == Model
      ensures input == "" && !isLoading && repoName == name
    {
      var initial := [WelcomeMessage(name)];
      messages := AfterRepoChange(initial, name);
      input := "";
      isLoading := false;
      repoName := name;
    }

    method SetInput(text: string)
      modifies this`input
      ensures input == text
    {
      input := text;
    }

    /** "Limpar": the conversation becomes empty. */
    method Clear()
      modifies this`messages
      ensures messages == []
    {
      messages := [];
    }

    /**
     * A render with the connected repository's name: the reset effect runs only when the name
     * differs from the previous render's, so reconnecting the same repository keeps the conversation.
     */
    method RepoChanged(name: string)
      modifies this`messages, this`repoName
      ensures repoName == name
      ensures messages == if name == old(repoName) then old(messages) else AfterRepoChange(old(messages), name)
    {
      if name != repoName {
        messages := AfterRepoChange(messages, name);
        repoName := name;
      }
    }

    /** The optimistic part of a send: the user's message and the empty reply go in, the input clears, loading starts. */
    method OpenTurn(userId: string, replyId: string)
      requires Accepts(input, isLoading)
      modifies this`messages, this`input, this`isLoading
      ensures messages == Opened(old(messages), old(input), userId, replyId)
      ensures input == "" && isLoading
    {
      messages := Opened(messages, input, userId, replyId);
      input := "";
      isLoading := true;
    }

    /** One streamed piece has arrived: the reply shows the whole text received so far. */
    method ShowReply(replyId: string, soFar: string)
      modifies this`messages
      ensures messages == ReplaceContent(old(messages), replyId, soFar)
    {
      messages := ReplaceContent(messages, replyId, soFar);
    }

    /** The end of a turn: the fallback message after a failure, and loading stops either way. */
    method CloseTurn(failed: bool, errorId: string)
      modifies this`messages, this`isLoading
      ensures messages == old(messages) + (if failed then [Message(errorId, Model, ConnectionErrorText)] else [])
      ensures !isLoading
    {
      if failed {
        messages := messages + [Message(errorId, Model, ConnectionErrorText)];
      }
      isLoading := false;
    }

    /**
     * `handleSend`: a refused send changes nothing and hands nothing upstream; an accepted one
     * hands upstream the conversation as it was before the send, then plays the whole turn.
     * `pieces` are the texts the stream yielded before it ended or, when `failed`, threw.
     */
    method Send(userId: string, replyId: string, pieces: seq<string>, failed: bool, errorId: string)
      returns (history: Option<seq<Message>>)
      modifies this`messages, this`input, this`isLoading
      ensures !Accepts(old(input), old(isLoading)) ==>
        history == None && messages == old(messages) && input == old(input) && isLoading == old(isLoading)
      ensures Accepts(old(input), old(isLoading)) ==>
        history == Some(old(messages)) && input == "" && !isLoading
        && messages == TurnMessages(old(messages), old(input), userId, replyId, pieces, failed, errorId)
    {
      if !Accepts(input, isLoading) {
        return None;
      }
      history := Some(messages);
      OpenTurn(userId, replyId);
      ghost var started := messages;
      var soFar := "";
      var i := 0;
      while i < |pieces|
        invariant 0 <= i <= |pieces|
        invariant soFar == ConcatAll(pieces[..i])
        invariant messages == Streaming(started, replyId, pieces[..i])
        invariant input == "" && isLoading
      {
        ConcatAllSnoc(pieces[..i], pieces[i]);
        assert pieces[..i + 1] == pieces[..i] + [pieces[i]];
        soFar := soFar + pieces[i];
        ReplaceContentSpec(started, replyId, ConcatAll(pieces[..i]), soFar);
        ShowReply(replyId, soFar);
        i := i + 1;
      }
      assert pieces[..i] == pieces;
      CloseTurn(failed, errorId);
    }
  }
}
