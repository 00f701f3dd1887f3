/**
 * `handleSponsorshipNeedChange`, written identically in the create and edit
 * event dialogs: checking a need appends it, unchecking removes every occurrence.
 */
module NeedsChecklist {
  import Seqs

  /** The sponsorship needs offered as checkboxes. */
  const NeedTypes: seq<string> := ["monetary", "product", "swag", "media", "venue"]

  /** The selected needs after the checkbox of `needId` becomes `checked`. */
  function Toggle(selected: seq<string>, needId: string, checked: bool): (r: seq<string>)
    ensures checked ==> r == selected + [needId]
    ensures !checked ==> needId !in r && Seqs.IsSubseq(r, selected)
    ensures !checked ==> forall i :: 0 <= i < |selected| && selected[i] != needId ==> selected[i] in r
    ensures !checked ==> forall x :: multiset(r)[x] == if x == needId then 0 else multiset(selected)[x]
  {
    if checked then selected + [needId]
    else
      Seqs.FilterIsSubseq(selected, (id: string) => id != needId);
      Seqs.FilterMultiset(selected, (id: string) => id != needId);
      Seqs.Filter(selected, (id: string) => id != needId)
  }

  /** Unchecking a need that was just checked restores the selection. */
  lemma UncheckUndoesCheck(selected: seq<string>, needId: string)
    requires needId !in selected
    ensures Toggle(Toggle(selected, needId, true), needId, false) == selected
  {
    var p := (id: string) => id != needId;
    Seqs.FilterAppend(selected, [needId], p);
    Seqs.FilterAll(selected, p);
  }

  /** Unchecking twice is the same as unchecking once. */
  lemma UncheckIdempotent(selected: seq<string>, needId: string)
    ensures Toggle(Toggle(selected, needId, false), needId, false) == Toggle(selected, needId, false)
  {
    var once := Toggle(selected, needId, false);
    Seqs.FilterAll(once, (id: string) => id != needId);
  }

  /**
   * With the checkbox bound to `selected.includes(needId)`, as in the edit dialog,
   * a check arrives only for an unselected need and an uncheck only for a selected
   * one; the selection then never lists a need twice.
   */
  lemma ControlledToggleKeepsDistinct(selected: seq<string>, needId: string, checked: bool)
    requires Seqs.Distinct(selected)
    requires checked <==> needId !in selected
    ensures Seqs.Distinct(Toggle(selected, needId, checked))
    ensures needId in Toggle(selected, needId, checked) <==> checked
  {
    if !checked {
      Seqs.FilterDistinct(selected, (id: string) => id != needId);
    }
  }
}
