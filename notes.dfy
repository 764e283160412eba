/**
 * The rule both shipment updates use to add an entry to a shipment's
 * `notes` column: a blank line separates the entry from notes that are
 * already there, and NULL or empty notes are replaced by the entry.
 */
module Notes {
  import opened Common

  /** The blank line written between two entries. */
  const Separator: string := "\n\n"

  /** `notes IS NOT NULL AND notes != ''`. */
  predicate HasNotes(notes: Option<string>) {
    notes.Some? && notes.value != ""
  }

  /** The SQL `CASE` of the two shipment updates, as a string function. */
  function AppendNote(notes: Option<string>, entry: string): string {
    if HasNotes(notes) then notes.value + Separator + entry else entry
  }

  /** The entry written when the expected delivery date changes. */
  function DateUpdateEntry(date: string, remark: string): (entry: string)
    ensures "Date Update: " <= entry
  {
    "Date Update: " + date + " - " + remark
  }

  /** The entry written when a shipment is marked received. */
  function ReceivedEntry(date: string, receivedBy: string, remark: string): (entry: string)
    ensures "Received: " <= entry
  {
    "Received: " + date + " by " + receivedBy + " - " + remark
  }

  /** Appending never loses what was written before: the old notes are a prefix. */
  lemma AppendKeepsOldNotes(notes: Option<string>, entry: string)
    ensures notes.Some? ==> notes.value <= AppendNote(notes, entry)
    ensures HasNotes(notes) ==> |AppendNote(notes, entry)| == |notes.value| + |Separator| + |entry|
  {
  }

  /** The new entry always ends the notes. */
  lemma AppendEndsWithEntry(notes: Option<string>, entry: string)
    ensures var r := AppendNote(notes, entry);
            |entry| <= |r| && r[|r| - |entry|..] == entry
  {
    var r := AppendNote(notes, entry);
    if HasNotes(notes) {
      assert r == (notes.value + Separator) + entry;
    }
  }

  /** The entries joined by the separator, oldest first. */
  function Join(entries: seq<string>): string {
    if entries == [] then ""
    else if |entries| == 1 then entries[0]
    else Join(entries[..|entries| - 1]) + Separator + entries[|entries| - 1]
  }

  /** The notes after the entries are appended one by one, starting from `notes`. */
  function NotesAfter(notes: Option<string>, entries: seq<string>): Option<string> {
    if entries == [] then notes
    else Some(AppendNote(NotesAfter(notes, entries[..|entries| - 1]), entries[|entries| - 1]))
  }

  /**
   * Starting from NULL notes, a sequence of non-empty entries leaves exactly
   * those entries in order, separated by blank lines: no entry is lost and
   * none is duplicated.
   */
  lemma {:induction false} NotesAfterIsJoin(entries: seq<string>)
    requires forall i :: 0 <= i < |entries| ==> entries[i] != ""
    ensures entries != [] ==> NotesAfter(None, entries) == Some(Join(entries))
    ensures entries == [] ==> NotesAfter(None, entries) == None
  {
    if |entries| > 1 {
      var init := entries[..|entries| - 1];
      NotesAfterIsJoin(init);
      assert init[0] != "";
      assert |Join(init)| > 0 by { JoinNonEmpty(init); }
    }
  }

  /** Joining non-empty entries gives non-empty text. */
  lemma {:induction false} JoinNonEmpty(entries: seq<string>)
    requires entries != []
    requires entries[0] != ""
    ensures Join(entries) != ""
  {
    if |entries| > 1 {
      JoinNonEmpty(entries[..|entries| - 1]);
    }
  }
}
