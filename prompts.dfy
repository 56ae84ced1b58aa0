/**
 * The prompt table, used as a single slot: the one prompt has id 1, and
 * `upsertPrompt` either rewrites it or inserts it.
 */
module Prompts {
  import opened Wrappers

  datatype Prompt = Prompt(id: nat, text: string, createdAt: int, updatedAt: int)

  const PromptId: nat := 1

  /** The row an upsert leaves: the text replaced and `updatedAt` stamped on
      the existing prompt, or a new prompt with id 1 created `now`. */
  function Upserted(current: Option<Prompt>, text: string, now: int): (p: Prompt)
    requires current.Some? ==> current.value.id == PromptId
    ensures p.id == PromptId && p.text == text && p.updatedAt == now
    ensures current.None? ==> p.createdAt == now
    ensures current.Some? ==> p.createdAt == current.value.createdAt
  {
    match current
    case Some(existing) => existing.(text := text, updatedAt := now)
    case None => Prompt(PromptId, text, now, now)
  }

  class PromptSlot {
    var row: Option<Prompt>

    ghost predicate Valid()
      reads this
    {
      row.Some? ==> row.value.id == PromptId
    }

    /** A fresh database: no prompt stored. */
    constructor ()
      ensures Valid() && row == None
    {
      row := None;
    }

    /** `getLatestPrompt`: the prompt with id 1, or null. */
    method GetLatest() returns (p: Option<Prompt>)
      requires Valid()
      ensures p == row
      ensures p.Some? ==> p.value.id == PromptId
    {
      p := row;
    }

    /** `upsertPrompt`: read the slot, then update it in place or insert id 1. */
    method Upsert(text: string, now: int) returns (p: Prompt)
      requires Valid()
      modifies this
      ensures Valid()
      ensures p == Upserted(old(row), text, now)
      ensures row == Some(p)
    {
      var existing := GetLatest();
      if existing.Some? {
        p := existing.value.(text := text, updatedAt := now);
      } else {
        p := Prompt(PromptId, text, now, now);
      }
      row := Some(p);
    }
  }
}
