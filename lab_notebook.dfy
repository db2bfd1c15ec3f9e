/** The lab notebook page: the search box keeps the notes whose title,
    content or tags contain the query, ignoring case, and each shown note
    lists its tags as chips cut at the commas. */
module LabNotebook {
  import opened Js
  import opened Text
  import opened Seqs
  import opened Schema

  /** The search test of one note: the lower-cased query occurs in the
      lower-cased title or content, or in the tags when they are truthy. */
  predicate Matches(note: LabNote, query: string) {
    var q := Lower(query);
    || Includes(Lower(note.title), q)
    || Includes(Lower(note.content), q)
    || (note.tags.Truthy() && Includes(Lower(note.tags.s), q))
  }

  /** `filteredNotes`: the notes that match, in listing order. */
  function FilteredNotes(notes: seq<LabNote>, query: string): (r: seq<LabNote>)
    ensures |r| <= |notes|
    ensures forall n :: n in r <==> n in notes && Matches(n, query)
    ensures forall n :: multiset(r)[n] == if Matches(n, query) then multiset(notes)[n] else 0
  {
    Filter(notes, (n: LabNote) => Matches(n, query))
  }

  /** An empty search box shows every note. */
  lemma EmptyQueryKeepsAll(notes: seq<LabNote>)
    ensures FilteredNotes(notes, "") == notes
  {
    forall i | 0 <= i < |notes| ensures Matches(notes[i], "") {
      assert Lower("") == "";
      IncludesEmpty(Lower(notes[i].title));
    }
    FilterAll(notes, (n: LabNote) => Matches(n, ""));
  }

  /** The result keeps the listing's order (newest first). */
  lemma FilteredKeepsOrder(notes: seq<LabNote>, query: string)
    ensures IsSubsequence(FilteredNotes(notes, query), notes)
  {
    FilterIsSubsequence(notes, (n: LabNote) => Matches(n, query));
  }

  /** Queries that differ only in the case of their letters find the same
      notes. */
  lemma QueryCaseIgnored(notes: seq<LabNote>, query: string)
    ensures FilteredNotes(notes, Upper(query)) == FilteredNotes(notes, query)
    ensures FilteredNotes(notes, Lower(query)) == FilteredNotes(notes, query)
  {
    LowerForgetsCase(query);
    FilterEquivalent(notes, (n: LabNote) => Matches(n, Upper(query)), (n: LabNote) => Matches(n, query));
    FilterEquivalent(notes, (n: LabNote) => Matches(n, Lower(query)), (n: LabNote) => Matches(n, query));
  }

  /** A note is found by any piece of its title, whatever the case of its
      letters. */
  lemma FoundByTitlePiece(notes: seq<LabNote>, k: int, i: int, j: int)
    requires 0 <= k < |notes| && 0 <= i <= j <= |notes[k].title|
    ensures notes[k] in FilteredNotes(notes, Upper(notes[k].title[i..j]))
  {
    var t := notes[k].title;
    var q := Upper(t[i..j]);
    LowerForgetsCase(t[i..j]);
    assert Lower(t)[i..j] == Lower(t[i..j]);
    assert OccursAt(Lower(t), Lower(q), i);
  }

  /** Tags are searched only when truthy: a note whose title and content do
      not contain the query is found exactly when its tags do. */
  lemma FoundByTags(note: LabNote, query: string)
    requires !Includes(Lower(note.title), Lower(query)) && !Includes(Lower(note.content), Lower(query))
    ensures Matches(note, query) <==> note.tags.Truthy() && Includes(Lower(note.tags.s), Lower(query))
  {
  }

  /** `parts.map(tag => tag.trim())`. */
  function TrimAll(parts: seq<string>): (r: seq<string>)
    ensures |r| == |parts| && forall i :: 0 <= i < |r| ==> r[i] == Trim(parts[i])
  {
    seq(|parts|, i requires 0 <= i < |parts| => Trim(parts[i]))
  }

  /** `tags.split(',').map(tag => tag.trim())`, shown only for truthy tags. */
  function TagChips(tags: Field): (chips: seq<string>)
    ensures !tags.Truthy() ==> chips == []
    ensures tags.Truthy() ==> |chips| == Occurrences(tags.s, ',') + 1
    ensures forall i :: 0 <= i < |chips| ==> ',' !in chips[i]
    ensures forall i :: 0 <= i < |chips| ==> Trimmed(chips[i])
    ensures tags.Truthy() ==> forall i :: 0 <= i < |chips| ==> chips[i] == Trim(Split(tags.s, ',')[i])
  {
    if !tags.Truthy() then []
    else
      var parts := Split(tags.s, ',');
      var chips := TrimAll(parts);
      forall i | 0 <= i < |chips| ensures ',' !in chips[i] {
        if ',' in chips[i] {
          TrimWithin(parts[i], ',');
        }
      }
      chips
  }

  /** Trimming pieces without white space at either end keeps them. */
  lemma TrimAllKeepsTrimmed(pieces: seq<string>)
    requires forall i :: 0 <= i < |pieces| ==> Trimmed(pieces[i])
    ensures TrimAll(pieces) == pieces
  {
    var chips := TrimAll(pieces);
    forall i | 0 <= i < |pieces| ensures chips[i] == pieces[i] {
      TrimKeepsTrimmed(pieces[i]);
    }
  }

  /** Tags written as comma-free pieces joined by commas, such as
      `"titration, pH"`, show those pieces trimmed, one chip each; pieces
      already without white space at either end show as written. */
  lemma TagChipsRoundTrip(pieces: seq<string>)
    requires |pieces| >= 1 && Join(pieces, ',') != ""
    requires forall i :: 0 <= i < |pieces| ==> ',' !in pieces[i]
    ensures TagChips(Text(Join(pieces, ','))) == TrimAll(pieces)
    ensures (forall i :: 0 <= i < |pieces| ==> Trimmed(pieces[i])) ==>
      TagChips(Text(Join(pieces, ','))) == pieces
  {
    var tags := Text(Join(pieces, ','));
    assert tags.Truthy();
    SplitJoin(pieces, ',');
    if forall i :: 0 <= i < |pieces| ==> Trimmed(pieces[i]) {
      TrimAllKeepsTrimmed(pieces);
    }
  }

  /** Every truthy tags value shows the trimmed pieces between its commas;
      joining those pieces back with commas gives the tags. */
  lemma TagChipsOfTags(tags: Field)
    requires tags.Truthy()
    ensures var pieces := Split(tags.s, ',');
      && Join(pieces, ',') == tags.s
      && (forall i :: 0 <= i < |pieces| ==> ',' !in pieces[i])
      && TagChips(tags) == TrimAll(pieces)
  {
    JoinSplit(tags.s, ',');
  }
}
