/**
 * Token accounting, count_tokens (query_generators/openai.py:114-132).
 * The tokenizer is not modelled: `Encoder(model, text)` is the length of
 * `tiktoken.encoding_for_model(model).encode(text)`.
 */
module Tokens {
  import opened Prompt

  type Encoder = (string, string) -> nat

  /** The tokens of every value of one message dict, keys not counted. */
  function ValueTokens(model: string, m: Message, enc: Encoder): nat
    decreases |m|
  {
    if |m| == 0 then 0
    else ValueTokens(model, m[..|m| - 1], enc) + enc(model, m[|m| - 1].1)
  }

  /** The tokens of every value of every message, in list order. */
  function MessagesTokens(model: string, ms: seq<Message>, enc: Encoder): nat
    decreases |ms|
  {
    if |ms| == 0 then 0
    else MessagesTokens(model, ms[..|ms| - 1], enc) + ValueTokens(model, ms[|ms| - 1], enc)
  }

  /**
   * count_tokens: for any model other than the legacy one, the sum over
   * the message values (the prompt is ignored); for the legacy model, the
   * tokens of the prompt (the messages are ignored).
   */
  function CountTokens(model: string, messages: seq<Message>, prompt: string, enc: Encoder): nat
  {
    if model != LegacyModel then MessagesTokens(model, messages, enc)
    else enc(model, prompt)
  }

  /** Counting a message list is additive over concatenation. */
  lemma {:induction false} MessagesTokensAppend(model: string, xs: seq<Message>, ys: seq<Message>, enc: Encoder)
    ensures MessagesTokens(model, xs + ys, enc) == MessagesTokens(model, xs, enc) + MessagesTokens(model, ys, enc)
    decreases |ys|
  {
    if |ys| == 0 {
      assert xs + ys == xs;
    } else {
      var init := ys[..|ys| - 1];
      assert (xs + ys)[..|xs + ys| - 1] == xs + init;
      assert (xs + ys)[|xs + ys| - 1] == ys[|ys| - 1];
      MessagesTokensAppend(model, xs, init, enc);
    }
  }

  /** A role/content message costs the tokens of its role tag plus those of its content. */
  lemma ChatMessageTokens(model: string, role: string, content: string, enc: Encoder)
    ensures ValueTokens(model, ChatMessage(role, content), enc) == enc(model, role) + enc(model, content)
  {
    var m := ChatMessage(role, content);
    assert m[..1] == [("role", role)];
    assert m[..1][..0] == [];
    assert ValueTokens(model, m[..1], enc) == enc(model, role);
  }

  /**
   * The count of a three-message chat request: every role tag and every
   * content string, each encoded once.
   */
  lemma ChatRequestTokens(model: string, sys: string, user: string, asst: string, enc: Encoder)
    requires model != LegacyModel
    ensures CountTokens(model, [ChatMessage("system", sys), ChatMessage("user", user), ChatMessage("assistant", asst)], "", enc)
         == enc(model, "system") + enc(model, sys) + enc(model, "user") + enc(model, user)
          + enc(model, "assistant") + enc(model, asst)
  {
    var ms := [ChatMessage("system", sys), ChatMessage("user", user), ChatMessage("assistant", asst)];
    ChatMessageTokens(model, "system", sys, enc);
    ChatMessageTokens(model, "user", user, enc);
    ChatMessageTokens(model, "assistant", asst, enc);
    MessagesTokensAppend(model, [ms[0]], [ms[1], ms[2]], enc);
    MessagesTokensAppend(model, [ms[1]], [ms[2]], enc);
    assert ms == [ms[0]] + [ms[1], ms[2]];
    assert [ms[1], ms[2]] == [ms[1]] + [ms[2]];
    assert [ms[0]][..0] == [] && [ms[1]][..0] == [] && [ms[2]][..0] == [];
  }

  /** The role/content messages of a list of (role, content) pairs, in order. */
  function ChatMessages(pairs: seq<(string, string)>): seq<Message> {
    seq(|pairs|, i requires 0 <= i < |pairs| => ChatMessage(pairs[i].0, pairs[i].1))
  }

  /** Every role tag and every content string of the pairs, each encoded once. */
  function PairTokens(model: string, pairs: seq<(string, string)>, enc: Encoder): nat {
    if |pairs| == 0 then 0
    else enc(model, pairs[0].0) + enc(model, pairs[0].1) + PairTokens(model, pairs[1..], enc)
  }

  /** A list of role/content messages costs the tokens of all its role tags and contents. */
  lemma {:induction false} ChatListTokens(model: string, pairs: seq<(string, string)>, enc: Encoder)
    ensures MessagesTokens(model, ChatMessages(pairs), enc) == PairTokens(model, pairs, enc)
    decreases |pairs|
  {
    if |pairs| == 0 {
      assert ChatMessages(pairs) == [];
    } else {
      var m := ChatMessage(pairs[0].0, pairs[0].1);
      assert ChatMessages(pairs) == [m] + ChatMessages(pairs[1..]);
      MessagesTokensAppend(model, [m], ChatMessages(pairs[1..]), enc);
      ChatMessageTokens(model, pairs[0].0, pairs[0].1, enc);
      assert [m][..0] == [];
      ChatListTokens(model, pairs[1..], enc);
    }
  }

  /**
   * count_tokens: a non-legacy model is charged for every role tag and
   * every content of its messages, whatever the prompt; the legacy model
   * is charged for the prompt alone, whatever the messages.
   */
  lemma CountTokensByMode(model: string, pairs: seq<(string, string)>, prompt: string, enc: Encoder)
    ensures model != LegacyModel ==> CountTokens(model, ChatMessages(pairs), prompt, enc) == PairTokens(model, pairs, enc)
    ensures model == LegacyModel ==> CountTokens(model, ChatMessages(pairs), prompt, enc) == enc(model, prompt)
  {
    ChatListTokens(model, pairs, enc);
  }
}
