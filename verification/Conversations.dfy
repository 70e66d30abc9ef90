/** An agent's conversation: replacing it by a smaller one, and taking that back (internal/engine/compact.go). */
module Conversations {
  import opened Transcript
  import opened Pairing
  import opened Rounds
  import opened Stages
  import opened Wrappers

  const KEEP_RECENT_TURNS := 2

  /** The messages of all the later turns, in order. */
  function Joined(turns: seq<seq<Message>>, n: nat): seq<Message>
    requires n <= |turns|
  {
    if n == 0 then [] else Joined(turns, n - 1) + turns[n-1]
  }

  class Agent {
    var messages: seq<Message>
    var saved: seq<Message>
    var archives: seq<seq<Message>>
    var preCompact: Option<seq<Message>>
    var postCompact: seq<Message>
    var lastPromptTokens: nat

    constructor (start: seq<Message>)
      ensures messages == saved == start && archives == [] && preCompact == None
    {
      messages, saved, archives, preCompact, postCompact, lastPromptTokens := start, start, [], None, [], 0;
    }

    /** Does the conversation still start with what the last compaction left? */
    predicate Undoable()
      reads `messages, `preCompact, `postCompact
    {
      preCompact.Some? && postCompact <= messages
    }

    /** The conversation as it would be had the last compaction not happened. */
    function Uncompacted(): seq<Message>
      reads `messages, `preCompact, `postCompact
    {
      if Undoable() then preCompact.value + messages[|postCompact|..] else messages
    }

    /** Writing the session file; a failed write leaves it as it was. */
    method Save(diskWorks: bool) returns (ok: bool)
      modifies `saved
      ensures ok == diskWorks && saved == if ok then messages else old(saved)
    {
      if diskWorks { saved := messages; }
      return diskWorks;
    }

    /** Keeping the whole transcript aside. */
    method Archive(before: seq<Message>, archiveWorks: bool) returns (ok: bool)
      modifies `archives
      ensures ok == archiveWorks && archives == if ok then old(archives) + [before] else old(archives)
    {
      if archiveWorks { archives := archives + [before]; }
      return archiveWorks;
    }

    method ApplyCompaction(before: seq<Message>, result: Compaction, archiveWorks: bool, diskWorks: bool)
      returns (ok: bool)
      requires before == messages
      modifies this
      ensures ok <==> archiveWorks && diskWorks
      ensures archives == if archiveWorks then old(archives) + [before] else old(archives)
      ensures if ok then
          messages == saved == postCompact == result.messages && preCompact == Some(before) && lastPromptTokens == 0
        else
          && messages == old(messages) && saved == old(saved) && preCompact == old(preCompact)
          && postCompact == old(postCompact)
          && lastPromptTokens == old(lastPromptTokens)
    {
      var archived := Archive(before, archiveWorks);
      if !archived { return false; }
      messages := result.messages;
      var written := Save(diskWorks);
      if !written {
        messages := before;
        return false;
      }
      preCompact, postCompact, lastPromptTokens := Some(before), result.messages, 0;
      return true;
    }

    /** Compaction replaces the conversation exactly when it got strictly smaller, the whole of it was archived and the
        smaller one saved; otherwise it changes neither the conversation nor its file. */
    method CompactNow(target: int, summarize: Option<Summarizer>, archiveWorks: bool, diskWorks: bool)
      returns (result: Compaction, changed: bool, failed: bool, ghost asked: bool)
      modifies this
      ensures AskedFor(Head(old(messages), 2), Tail(old(messages), 2), summarize, result,
        failed, asked)
      ensures Settled(old(messages), Head(old(messages), 2), Tail(old(messages), 2),
        if target <= 0 then Estimate(old(messages)) / 2 else target, summarize, result, failed)
      ensures changed <==> Estimate(result.messages) < Estimate(old(messages)) && archiveWorks && diskWorks
      ensures result.freed == Estimate(old(messages)) - Estimate(result.messages)
      ensures changed ==> result.stage != STAGE_NONE && result.replaced > 0
      ensures changed ==> messages == saved == result.messages && archives == old(archives) + [old(messages)]
      ensures changed ==> Undoable() && Uncompacted() == old(messages)
      ensures !changed ==> messages == old(messages) && saved == old(saved)
      ensures !changed ==> preCompact == old(preCompact) && postCompact == old(postCompact)
      ensures KeepsPairing(old(messages), messages)
      ensures OfRole(messages, "system") == OfRole(old(messages), "system")
    {
      hide Answered, Owned, OfRoleTo, Settled, CharsTo, KeepsPairing, Head, Tail, AskedFor;
      var before := messages;
      var goal := target;
      if target <= 0 {
        var tokens := EstimateTokens(before);
        goal := tokens / 2;
      }
      result, failed, asked := CompactMessages(before, KEEP_RECENT_TURNS, goal, summarize);
      KeepsItself(before);
      SplitsAtTurns(before, KEEP_RECENT_TURNS);
      GainIsReported(before, Head(before, KEEP_RECENT_TURNS), Tail(before, KEEP_RECENT_TURNS), goal, summarize, result,
          failed);
      changed := false;
      if result.stage == STAGE_NONE || result.replaced == 0 || result.freed <= 0 { return; }
      changed := ApplyCompaction(before, result, archiveWorks, diskWorks);
    }

    /** Later turns. */
    method Append(more: seq<Message>)
      requires preCompact.Some? ==> Undoable()
      modifies `messages
      ensures messages == old(messages) + more
      ensures Undoable() == old(Undoable()) && Uncompacted() == old(Uncompacted()) + more
    {
      messages := messages + more;
    }

    /** Taking the last compaction back: the replaced messages return, and everything said since stays. Refused when the
        conversation no longer starts with what compaction left. */
    method RestoreCompaction(diskWorks: bool) returns (ok: bool)
      modifies this
      ensures ok <==> old(Undoable()) && diskWorks
      ensures ok ==> messages == saved == old(Uncompacted()) && preCompact == None
      ensures !ok ==> messages == old(messages) && saved == old(saved)
      ensures !ok ==> preCompact == old(preCompact) && postCompact == old(postCompact)
      ensures archives == old(archives)
    {
      if preCompact.None? { return false; }
      var current := messages;
      if |current| < |postCompact| || current[..|postCompact|] != postCompact { return false; }
      var restored := preCompact.value + current[|postCompact|..];
      messages := restored;
      var written := Save(diskWorks);
      if !written {
        messages := current;
        return false;
      }
      preCompact, postCompact, lastPromptTokens := None, [], 0;
      return true;
    }

    /** Compacting, any number of later turns, and taking the compaction back: nothing is lost, nothing is out of
        place. */
    method CompactThenRestore(target: int, summarize: Option<Summarizer>, turns: seq<seq<Message>>)
      returns (compacted: bool)
      modifies this
      ensures compacted ==> messages == saved == old(messages) + Joined(turns, |turns|)
      ensures !compacted ==> messages == old(messages)
    {
      hide Settled, KeepsPairing, CharsTo, OfRole, Uncompacted, Undoable, Joined, AskedFor;
      var result, failed;
      ghost var asked;
      result, compacted, failed, asked := CompactNow(target, summarize, true, true);
      if !compacted { return; }
      ghost var before := Uncompacted();
      NoTurns(before, turns);
      for t := 0 to |turns|
        invariant Undoable() && Uncompacted() == before + Joined(turns, t)
      {
        Append(turns[t]);
        OneMoreTurn(before, turns, t);
      }
      var restored := RestoreCompaction(true);
    }
  }

  lemma NoTurns(before: seq<Message>, turns: seq<seq<Message>>)
    ensures before + Joined(turns, 0) == before
  {
  }

  lemma OneMoreTurn(before: seq<Message>, turns: seq<seq<Message>>, t: nat)
    requires t < |turns|
    ensures before + Joined(turns, t) + turns[t] == before + Joined(turns, t + 1)
  {
  }

  lemma KeepsItself(ms: seq<Message>)
    ensures KeepsPairing(ms, ms)
  {
  }
}
