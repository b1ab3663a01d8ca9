/** The column bookkeeping of the results table (ColumnsManager): the saved column state is
    pruned of fields the case does not have, or replaced by the default layout; the field
    groups of the column chooser are rebuilt; columns are shown and hidden by name. The
    Swing table itself is not modelled: where the source asks it for a column's width, the
    width is a parameter. */
module Columns {
  import opened Text
  import opened Ordering
  import opened ColumnGroups

  /** defaultWidths */
  const DefaultWidths: seq<int> := [50, 100, 200, 50, 50, 100, 60, 150, 155, 155, 155, 155, 155, 155, 250, 2000]

  /** What reading the saved ColumnState gives: nothing (no file, or the read failed) or its
      two parallel lists. */
  datatype SavedColumns = Unavailable | Read(visibleFields: seq<string>, initialWidths: seq<int>)

  /** A column of the table as the view sees it: not shown, or shown with a width. */
  datatype ViewColumn = NotInView | InView(width: int)

  /** A saved field survives when the case indexes it or it is the score or bookmark column. */
  predicate Kept(f: string, indexFields: seq<string>, scoreCol: string, bookmarkCol: string)
  {
    f in indexFields || f == scoreCol || f == bookmarkCol
  }

  /** The saved fields that survive, in their order. */
  function KeptFields(fs: seq<string>, indexFields: seq<string>, scoreCol: string, bookmarkCol: string): seq<string>
  {
    if fs == [] then []
    else
      KeptFields(fs[..|fs| - 1], indexFields, scoreCol, bookmarkCol)
        + (if Kept(fs[|fs| - 1], indexFields, scoreCol, bookmarkCol) then [fs[|fs| - 1]] else [])
  }

  /** The saved widths at the positions of the surviving fields, in their order: exactly as
      many as there are surviving fields. */
  function KeptWidths(fs: seq<string>, ws: seq<int>, indexFields: seq<string>, scoreCol: string, bookmarkCol: string): (r: seq<int>)
    requires |fs| == |ws|
    ensures |r| == |KeptFields(fs, indexFields, scoreCol, bookmarkCol)|
  {
    if fs == [] then []
    else
      KeptWidths(fs[..|fs| - 1], ws[..|ws| - 1], indexFields, scoreCol, bookmarkCol)
        + (if Kept(fs[|fs| - 1], indexFields, scoreCol, bookmarkCol) then [ws[|ws| - 1]] else [])
  }

  /** A field survives exactly when it was saved and is kept. */
  lemma {:induction false} KeptFieldsMember(fs: seq<string>, indexFields: seq<string>, scoreCol: string, bookmarkCol: string, f: string)
    ensures f in KeptFields(fs, indexFields, scoreCol, bookmarkCol) <==> f in fs && Kept(f, indexFields, scoreCol, bookmarkCol)
  {
    if fs != [] {
      KeptFieldsMember(fs[..|fs| - 1], indexFields, scoreCol, bookmarkCol, f);
      assert fs == fs[..|fs| - 1] + [fs[|fs| - 1]];
    }
  }

  /** Survivors keep their relative order: pruning distributes over concatenation. */
  lemma {:induction false} KeptFieldsAppend(a: seq<string>, b: seq<string>, indexFields: seq<string>, scoreCol: string, bookmarkCol: string)
    ensures KeptFields(a + b, indexFields, scoreCol, bookmarkCol)
         == KeptFields(a, indexFields, scoreCol, bookmarkCol) + KeptFields(b, indexFields, scoreCol, bookmarkCol)
    decreases |b|
  {
    if b == [] {
      assert a + b == a;
    } else {
      assert (a + b)[..|a + b| - 1] == a + b[..|b| - 1];
      KeptFieldsAppend(a, b[..|b| - 1], indexFields, scoreCol, bookmarkCol);
    }
  }

  /** Pruning never lengthens the list, and removes nothing exactly when every saved field is
      kept; then both lists are left as they were. */
  lemma {:induction false} KeptNothingRemoved(fs: seq<string>, ws: seq<int>, indexFields: seq<string>, scoreCol: string, bookmarkCol: string)
    requires |fs| == |ws|
    ensures |KeptFields(fs, indexFields, scoreCol, bookmarkCol)| <= |fs|
    ensures |KeptFields(fs, indexFields, scoreCol, bookmarkCol)| == |fs|
            <==> forall k | 0 <= k < |fs| :: Kept(fs[k], indexFields, scoreCol, bookmarkCol)
    ensures |KeptFields(fs, indexFields, scoreCol, bookmarkCol)| == |fs| ==>
              KeptFields(fs, indexFields, scoreCol, bookmarkCol) == fs && KeptWidths(fs, ws, indexFields, scoreCol, bookmarkCol) == ws
  {
    if fs != [] {
      var n := |fs| - 1;
      KeptNothingRemoved(fs[..n], ws[..n], indexFields, scoreCol, bookmarkCol);
      assert fs == fs[..n] + [fs[n]] && ws == ws[..n] + [ws[n]];
    }
  }

  /** One saved column: a field and the width saved at the same position. */
  datatype Column = Column(field: string, width: int)

  /** The saved fields and widths paired position by position. */
  function Zip(fs: seq<string>, ws: seq<int>): (r: seq<Column>)
    requires |fs| == |ws|
    ensures |r| == |fs|
  {
    if fs == [] then [] else Zip(fs[..|fs| - 1], ws[..|ws| - 1]) + [Column(fs[|fs| - 1], ws[|ws| - 1])]
  }

  /** The columns that survive, as pairs. */
  function Prune(cs: seq<Column>, indexFields: seq<string>, scoreCol: string, bookmarkCol: string): seq<Column>
  {
    if cs == [] then []
    else
      Prune(cs[..|cs| - 1], indexFields, scoreCol, bookmarkCol)
        + (if Kept(cs[|cs| - 1].field, indexFields, scoreCol, bookmarkCol) then [cs[|cs| - 1]] else [])
  }

  /** The two pruned lists stay aligned: pairing them gives the surviving saved columns, so
      every surviving field keeps the width it was saved with. */
  lemma {:induction false} KeptAligned(fs: seq<string>, ws: seq<int>, indexFields: seq<string>, scoreCol: string, bookmarkCol: string)
    requires |fs| == |ws|
    ensures Zip(KeptFields(fs, indexFields, scoreCol, bookmarkCol), KeptWidths(fs, ws, indexFields, scoreCol, bookmarkCol))
         == Prune(Zip(fs, ws), indexFields, scoreCol, bookmarkCol)
  {
    if fs != [] {
      var n := |fs| - 1;
      KeptAligned(fs[..n], ws[..n], indexFields, scoreCol, bookmarkCol);
      var kf, kw := KeptFields(fs[..n], indexFields, scoreCol, bookmarkCol), KeptWidths(fs[..n], ws[..n], indexFields, scoreCol, bookmarkCol);
      var z := Zip(fs, ws);
      assert z == Zip(fs[..n], ws[..n]) + [Column(fs[n], ws[n])];
      assert z[..n] == Zip(fs[..n], ws[..n]) && z[n] == Column(fs[n], ws[n]);
      assert Prune(z, indexFields, scoreCol, bookmarkCol)
          == Prune(Zip(fs[..n], ws[..n]), indexFields, scoreCol, bookmarkCol)
             + (if Kept(fs[n], indexFields, scoreCol, bookmarkCol) then [Column(fs[n], ws[n])] else []);
      assert KeptFields(fs, indexFields, scoreCol, bookmarkCol)
          == kf + (if Kept(fs[n], indexFields, scoreCol, bookmarkCol) then [fs[n]] else []);
      assert KeptWidths(fs, ws, indexFields, scoreCol, bookmarkCol)
          == kw + (if Kept(fs[n], indexFields, scoreCol, bookmarkCol) then [ws[n]] else []);
      if Kept(fs[n], indexFields, scoreCol, bookmarkCol) {
        ZipSnoc(kf, kw, fs[n], ws[n]);
      } else {
        assert kf + [] == kf && kw + [] == kw;
      }
    }
  }

  lemma ZipSnoc(fs: seq<string>, ws: seq<int>, f: string, w: int)
    requires |fs| == |ws|
    ensures Zip(fs + [f], ws + [w]) == Zip(fs, ws) + [Column(f, w)]
  {
    assert (fs + [f])[..|fs|] == fs && (ws + [w])[..|ws|] == ws;
  }

  /** A column survives exactly when it was saved and its field is kept. */
  lemma {:induction false} PruneMember(cs: seq<Column>, indexFields: seq<string>, scoreCol: string, bookmarkCol: string, c: Column)
    ensures c in Prune(cs, indexFields, scoreCol, bookmarkCol) <==> c in cs && Kept(c.field, indexFields, scoreCol, bookmarkCol)
  {
    if cs != [] {
      PruneMember(cs[..|cs| - 1], indexFields, scoreCol, bookmarkCol, c);
      assert cs == cs[..|cs| - 1] + [cs[|cs| - 1]];
    }
  }

  /** List.indexOf: the first position of `x`, or -1. */
  function IndexOf(s: seq<string>, x: string): (r: int)
    ensures -1 <= r < |s|
    ensures r == -1 <==> x !in s
    ensures 0 <= r ==> s[r] == x && x !in s[..r]
  {
    if s == [] then -1
    else if s[0] == x then 0
    else
      var r := IndexOf(s[1..], x);
      assert s == [s[0]] + s[1..];
      if r == -1 then -1 else r + 1
  }

  /** List.remove(Object): the first occurrence of `x` is removed, if any. */
  function RemoveFirst(s: seq<string>, x: string): seq<string>
  {
    var k := IndexOf(s, x);
    if k < 0 then s else s[..k] + s[k + 1..]
  }

  lemma RemoveFirstCount(s: seq<string>, x: string)
    ensures x in s ==> multiset(RemoveFirst(s, x)) == multiset(s) - multiset{x}
    ensures x !in s ==> RemoveFirst(s, x) == s
  {
    var k := IndexOf(s, x);
    if 0 <= k {
      assert s == s[..k] + [x] + s[k + 1..];
    }
  }

  /** The fields of a snapshot resetColumns keeps visible: those in the new layout and the
      score and bookmark columns. */
  function Wanted(xs: seq<string>, newCols: seq<string>, scoreCol: string, bookmarkCol: string): seq<string>
  {
    if xs == [] then []
    else
      var f := xs[|xs| - 1];
      Wanted(xs[..|xs| - 1], newCols, scoreCol, bookmarkCol)
        + (if f in newCols || f == scoreCol || f == bookmarkCol then [f] else [])
  }

  lemma {:induction false} WantedMember(xs: seq<string>, newCols: seq<string>, scoreCol: string, bookmarkCol: string, f: string)
    ensures f in Wanted(xs, newCols, scoreCol, bookmarkCol) <==> f in xs && (f in newCols || f == scoreCol || f == bookmarkCol)
  {
    if xs != [] {
      WantedMember(xs[..|xs| - 1], newCols, scoreCol, bookmarkCol, f);
      assert xs == xs[..|xs| - 1] + [xs[|xs| - 1]];
    }
  }

  /** The loop over the extra attributes in updateDinamicFields: the first matching prefix
      chooses the list. */
  method ClassifyExtraAttributes(px: Prefixes, all: seq<string>)
    returns (regex: seq<string>, language: seq<string>, hashDb: seq<string>, advanced: seq<string>)
    ensures regex == OfKind(px, all, RegexAttr) && language == OfKind(px, all, LanguageAttr)
    ensures hashDb == OfKind(px, all, HashDbAttr) && advanced == OfKind(px, all, AdvancedAttr)
  {
    regex, language, hashDb, advanced := [], [], [], [];
    var i := 0;
    while i < |all|
      invariant 0 <= i <= |all|
      invariant regex == OfKind(px, all[..i], RegexAttr) && language == OfKind(px, all[..i], LanguageAttr)
      invariant hashDb == OfKind(px, all[..i], HashDbAttr) && advanced == OfKind(px, all[..i], AdvancedAttr)
    {
      assert all[..i + 1][..i] == all[..i];
      var f := all[i];
      if StartsWith(f, px.regex) {
        regex := regex + [f];
      } else if StartsWith(f, px.language) {
        language := language + [f];
      } else if StartsWith(f, px.hashDb) || StartsWith(f, px.photoDna) {
        hashDb := hashDb + [f];
      } else {
        advanced := advanced + [f];
      }
      i := i + 1;
    }
    assert all[..i] == all;
  }

  /** The eleven metadata-group lists updateDinamicFields fills from the index fields. */
  datatype MetaFields = MetaFields(audio: seq<string>, image: seq<string>, video: seq<string>, pdf: seq<string>,
                                   office: seq<string>, html: seq<string>, ner: seq<string>, p2p: seq<string>,
                                   ufed: seq<string>, communication: seq<string>, common: seq<string>)

  /** The lists for the fields `xs`, one per metadata group. */
  function MetaFieldsOf(px: Prefixes, xs: seq<string>): MetaFields
  {
    MetaFields(InGroup(px, xs, Audio), InGroup(px, xs, Image), InGroup(px, xs, Video), InGroup(px, xs, Pdf),
               InGroup(px, xs, Office), InGroup(px, xs, Html), InGroup(px, xs, Ner), InGroup(px, xs, P2p),
               InGroup(px, xs, Ufed), InGroup(px, xs, Communication), InGroup(px, xs, Common))
  }

  /** ArrayList.add on the list of group `g`; a field in no group is dropped. */
  function AddField(m: MetaFields, g: MetaGroup, f: string): MetaFields
  {
    match g
    case Audio => m.(audio := m.audio + [f])
    case Image => m.(image := m.image + [f])
    case Video => m.(video := m.video + [f])
    case Pdf => m.(pdf := m.pdf + [f])
    case Office => m.(office := m.office + [f])
    case Html => m.(html := m.html + [f])
    case Ner => m.(ner := m.ner + [f])
    case P2p => m.(p2p := m.p2p + [f])
    case Ufed => m.(ufed := m.ufed + [f])
    case Communication => m.(communication := m.communication + [f])
    case Common => m.(common := m.common + [f])
    case NoMetaGroup => m
  }

  /** One more index field: it joins the list of its own metadata group only. */
  lemma MetaFieldsStep(px: Prefixes, xs: seq<string>, i: nat)
    requires i < |xs|
    ensures MetaFieldsOf(px, xs[..i + 1]) == AddField(MetaFieldsOf(px, xs[..i]), MetaGroupOf(px, xs[i]), xs[i])
  {
    assert xs[..i + 1][..i] == xs[..i];
  }

  /** The loop over the index fields in updateDinamicFields: the first matching prefix chooses
      the metadata group (the chain of prefix tests is MetaGroupOf); a field matching none goes
      to no group. */
  method ClassifyIndexFields(px: Prefixes, fields: seq<string>) returns (groups: MetaFields)
    ensures groups == MetaFieldsOf(px, fields)
  {
    groups := MetaFields([], [], [], [], [], [], [], [], [], [], []);
    var i := 0;
    while i < |fields|
      invariant 0 <= i <= |fields|
      invariant groups == MetaFieldsOf(px, fields[..i])
    {
      MetaFieldsStep(px, fields, i);
      groups := AddField(groups, MetaGroupOf(px, fields[i]), fields[i]);
      i := i + 1;
    }
    assert fields[..i] == fields;
  }

  /** The otherFields loop: an index field is added unless some custom group holds it. */
  method OtherFields(indexFields: seq<string>, custom: seq<seq<string>>) returns (others: seq<string>)
    ensures others == Others(indexFields, custom)
  {
    others := [];
    var i := 0;
    while i < |indexFields|
      invariant 0 <= i <= |indexFields|
      invariant others == Others(indexFields[..i], custom)
    {
      assert indexFields[..i + 1][..i] == indexFields[..i];
      var f := indexFields[i];
      var insertField := true;
      var j := 0;
      while j < |custom|
        invariant 0 <= j <= |custom|
        invariant insertField && forall k | 0 <= k < j :: f !in custom[k]
      {
        if f in custom[j] {
          insertField := false;
          break;
        }
        j := j + 1;
      }
      assert insertField <==> forall k | 0 <= k < |custom| :: f !in custom[k];
      if insertField {
        others := others + [f];
      }
      i := i + 1;
    }
    assert indexFields[..i] == indexFields;
  }

  /** The pruning loop of loadSavedCols over the saved lists: a field that is not kept is
      removed together with the width at the same position, found at i - removed. */
  method PruneSaved(fs: seq<string>, ws: seq<int>, indexFields: seq<string>, scoreCol: string, bookmarkCol: string)
    returns (visible: seq<string>, widths: seq<int>, removed: nat)
    requires |fs| == |ws|
    ensures visible == KeptFields(fs, indexFields, scoreCol, bookmarkCol)
    ensures widths == KeptWidths(fs, ws, indexFields, scoreCol, bookmarkCol)
    ensures removed == |fs| - |visible|
  {
    visible, widths, removed := fs, ws, 0;
    var i := 0;
    PruneStart(fs, ws, indexFields, scoreCol, bookmarkCol);
    while i < |fs|
      invariant 0 <= i <= |fs|
      invariant PruneProgress(fs, ws, i, visible, widths, removed, indexFields, scoreCol, bookmarkCol)
    {
      var field := fs[i];
      if field !in indexFields && field != scoreCol && field != bookmarkCol {
        PruneRemoveStep(fs, ws, i, visible, widths, removed, indexFields, scoreCol, bookmarkCol);
        visible := visible[..i - removed] + visible[i - removed + 1..];
        widths := widths[..i - removed] + widths[i - removed + 1..];
        removed := removed + 1;
      } else {
        PruneKeepStep(fs, ws, i, visible, widths, removed, indexFields, scoreCol, bookmarkCol);
      }
      i := i + 1;
    }
    PruneDone(fs, ws, visible, widths, removed, indexFields, scoreCol, bookmarkCol);
  }

  lemma PruneStart(fs: seq<string>, ws: seq<int>, indexFields: seq<string>, scoreCol: string, bookmarkCol: string)
    requires |fs| == |ws|
    ensures PruneProgress(fs, ws, 0, fs, ws, 0, indexFields, scoreCol, bookmarkCol)
  {
    assert fs[..0] == [] && ws[..0] == [];
  }

  lemma PruneDone(fs: seq<string>, ws: seq<int>, visible: seq<string>, widths: seq<int>, removed: nat,
                  indexFields: seq<string>, scoreCol: string, bookmarkCol: string)
    requires |fs| == |ws|
    requires PruneProgress(fs, ws, |fs|, visible, widths, removed, indexFields, scoreCol, bookmarkCol)
    ensures visible == KeptFields(fs, indexFields, scoreCol, bookmarkCol)
    ensures widths == KeptWidths(fs, ws, indexFields, scoreCol, bookmarkCol)
    ensures removed == |fs| - |visible|
  {
    assert fs[..|fs|] == fs && ws[..|ws|] == ws;
  }

  /** The state of the pruning loop after the first i saved columns: the survivors among them,
      then the columns not yet looked at. */
  ghost predicate PruneProgress(fs: seq<string>, ws: seq<int>, i: nat, visible: seq<string>, widths: seq<int>, removed: nat,
                                indexFields: seq<string>, scoreCol: string, bookmarkCol: string)
    requires |fs| == |ws| && i <= |fs|
  {
    var kept := KeptFields(fs[..i], indexFields, scoreCol, bookmarkCol);
    && visible == kept + fs[i..]
    && widths == KeptWidths(fs[..i], ws[..i], indexFields, scoreCol, bookmarkCol) + ws[i..]
    && removed == i - |kept|
  }

  /** One more saved column: the survivors among the first i + 1. */
  lemma PruneStep(fs: seq<string>, ws: seq<int>, i: nat, indexFields: seq<string>, scoreCol: string, bookmarkCol: string)
    requires |fs| == |ws| && i < |fs|
    ensures var keep := Kept(fs[i], indexFields, scoreCol, bookmarkCol);
            && KeptFields(fs[..i + 1], indexFields, scoreCol, bookmarkCol)
               == KeptFields(fs[..i], indexFields, scoreCol, bookmarkCol) + (if keep then [fs[i]] else [])
            && KeptWidths(fs[..i + 1], ws[..i + 1], indexFields, scoreCol, bookmarkCol)
               == KeptWidths(fs[..i], ws[..i], indexFields, scoreCol, bookmarkCol) + (if keep then [ws[i]] else [])
  {
    assert fs[..i + 1][..i] == fs[..i];
    assert ws[..i + 1][..i] == ws[..i];
  }

  lemma PruneKeepStep(fs: seq<string>, ws: seq<int>, i: nat, visible: seq<string>, widths: seq<int>, removed: nat,
                      indexFields: seq<string>, scoreCol: string, bookmarkCol: string)
    requires |fs| == |ws| && i < |fs|
    requires PruneProgress(fs, ws, i, visible, widths, removed, indexFields, scoreCol, bookmarkCol)
    requires Kept(fs[i], indexFields, scoreCol, bookmarkCol)
    ensures PruneProgress(fs, ws, i + 1, visible, widths, removed, indexFields, scoreCol, bookmarkCol)
  {
    PruneStep(fs, ws, i, indexFields, scoreCol, bookmarkCol);
    assert fs[i..] == [fs[i]] + fs[i + 1..];
    assert ws[i..] == [ws[i]] + ws[i + 1..];
  }

  lemma PruneRemoveStep(fs: seq<string>, ws: seq<int>, i: nat, visible: seq<string>, widths: seq<int>, removed: nat,
                        indexFields: seq<string>, scoreCol: string, bookmarkCol: string)
    requires |fs| == |ws| && i < |fs|
    requires PruneProgress(fs, ws, i, visible, widths, removed, indexFields, scoreCol, bookmarkCol)
    requires !Kept(fs[i], indexFields, scoreCol, bookmarkCol)
    ensures 0 <= i - removed < |visible| && i - removed < |widths|
    ensures PruneProgress(fs, ws, i + 1, visible[..i - removed] + visible[i - removed + 1..],
                          widths[..i - removed] + widths[i - removed + 1..], removed + 1, indexFields, scoreCol, bookmarkCol)
  {
    var kf := KeptFields(fs[..i], indexFields, scoreCol, bookmarkCol);
    var kw := KeptWidths(fs[..i], ws[..i], indexFields, scoreCol, bookmarkCol);
    PruneStep(fs, ws, i, indexFields, scoreCol, bookmarkCol);
    var k := i - removed;
    assert k == |kf| == |kw|;
    assert visible[..k] == kf && visible[k + 1..] == fs[i + 1..];
    assert widths[..k] == kw && widths[k + 1..] == ws[i + 1..];
  }

  /** The body of updateDinamicFields between reading the attributes and sorting: the
      classification loops, the custom groups in the order of their titles, the "Other"
      fields and a copy of all index fields. */
  method BuildGroups(defaults: seq<string>, px: Prefixes, all: seq<string>, indexFields: seq<string>)
    returns (groups: seq<seq<string>>)
    ensures groups == Groups(defaults, px, all, indexFields)
  {
    var regex, language, hashDb, advanced := ClassifyExtraAttributes(px, all);
    var meta := ClassifyIndexFields(px, indexFields);
    var custom := [defaults, hashDb, advanced, meta.common, meta.communication, meta.audio, meta.image, meta.video,
                   meta.pdf, meta.office, meta.html, regex, language, meta.ner, meta.p2p, meta.ufed];
    assert custom == CustomGroups(defaults, px, all, indexFields);
    var others := OtherFields(indexFields, custom);
    groups := custom + [others, indexFields];
  }

  /** Every visible field is in the layout or is the score or bookmark column. */
  ghost predicate OnlyWanted(visible: seq<string>, newCols: seq<string>, scoreCol: string, bookmarkCol: string)
  {
    forall f | f in visible :: f in newCols || f == scoreCol || f == bookmarkCol
  }

  /** A field absent from a prefix is first found right after it. */
  lemma {:induction false} IndexOfAfterAbsent(w: seq<string>, x: string, rest: seq<string>)
    requires x !in w
    ensures IndexOf(w + [x] + rest, x) == |w|
  {
    if w != [] {
      assert (w + [x] + rest)[1..] == w[1..] + [x] + rest;
      IndexOfAfterAbsent(w[1..], x, rest);
    }
  }

  /** Removing the first occurrence of a field absent from a prefix removes the occurrence
      right after it. */
  lemma RemoveFirstAfter(w: seq<string>, x: string, rest: seq<string>)
    requires x !in w
    ensures RemoveFirst(w + [x] + rest, x) == w + rest
  {
    IndexOfAfterAbsent(w, x, rest);
    var s := w + [x] + rest;
    assert s[..|w|] == w && s[|w| + 1..] == rest;
  }

  /** The state of the first loop of resetColumns after i fields of the snapshot: the wanted
      ones among those, in order, followed by all the rest. */
  ghost predicate HideProgress(snapshot: seq<string>, i: nat, visible: seq<string>, newCols: seq<string>,
                               scoreCol: string, bookmarkCol: string)
    requires i <= |snapshot|
  {
    visible == Wanted(snapshot[..i], newCols, scoreCol, bookmarkCol) + snapshot[i..]
  }

  lemma HideStart(snapshot: seq<string>, newCols: seq<string>, scoreCol: string, bookmarkCol: string)
    ensures HideProgress(snapshot, 0, snapshot, newCols, scoreCol, bookmarkCol)
  {
    assert snapshot[..0] == [] && snapshot[0..] == snapshot;
  }

  /** The wanted fields of one more snapshot field. */
  lemma WantedSnoc(snapshot: seq<string>, i: nat, newCols: seq<string>, scoreCol: string, bookmarkCol: string)
    requires i < |snapshot|
    ensures var f := snapshot[i];
            Wanted(snapshot[..i + 1], newCols, scoreCol, bookmarkCol)
              == Wanted(snapshot[..i], newCols, scoreCol, bookmarkCol)
                 + (if f in newCols || f == scoreCol || f == bookmarkCol then [f] else [])
  {
    assert snapshot[..i + 1][..i] == snapshot[..i] && snapshot[..i + 1][i] == snapshot[i];
  }

  /** A wanted field of the snapshot stays where it is. */
  lemma HideKeepStep(snapshot: seq<string>, i: nat, visible: seq<string>, newCols: seq<string>,
                     scoreCol: string, bookmarkCol: string)
    requires i < |snapshot|
    requires HideProgress(snapshot, i, visible, newCols, scoreCol, bookmarkCol)
    requires snapshot[i] in newCols || snapshot[i] == scoreCol || snapshot[i] == bookmarkCol
    ensures HideProgress(snapshot, i + 1, visible, newCols, scoreCol, bookmarkCol)
  {
    WantedSnoc(snapshot, i, newCols, scoreCol, bookmarkCol);
    assert snapshot[i..] == [snapshot[i]] + snapshot[i + 1..];
  }

  /** For an unwanted field of the snapshot, the first occurrence updateCol removes is
      exactly this one. */
  lemma HideDropStep(snapshot: seq<string>, i: nat, visible: seq<string>, newCols: seq<string>,
                     scoreCol: string, bookmarkCol: string)
    requires i < |snapshot|
    requires HideProgress(snapshot, i, visible, newCols, scoreCol, bookmarkCol)
    requires !(snapshot[i] in newCols || snapshot[i] == scoreCol || snapshot[i] == bookmarkCol)
    ensures HideProgress(snapshot, i + 1, RemoveFirst(visible, snapshot[i]), newCols, scoreCol, bookmarkCol)
  {
    var f := snapshot[i];
    var w := Wanted(snapshot[..i], newCols, scoreCol, bookmarkCol);
    var rest := snapshot[i + 1..];
    WantedSnoc(snapshot, i, newCols, scoreCol, bookmarkCol);
    assert snapshot[i..] == [f] + rest;
    assert visible == w + [f] + rest;
    WantedMember(snapshot[..i], newCols, scoreCol, bookmarkCol, f);
    RemoveFirstAfter(w, f, rest);
  }

  /** After the first loop the visible fields are the wanted fields of the snapshot, in their
      order, and nothing else. */
  lemma HideDone(snapshot: seq<string>, visible: seq<string>, newCols: seq<string>, scoreCol: string, bookmarkCol: string)
    requires HideProgress(snapshot, |snapshot|, visible, newCols, scoreCol, bookmarkCol)
    ensures visible == Wanted(snapshot, newCols, scoreCol, bookmarkCol)
    ensures OnlyWanted(visible, newCols, scoreCol, bookmarkCol)
  {
    assert snapshot[..|snapshot|] == snapshot && snapshot[|snapshot|..] == [];
    forall f | f in visible ensures f in newCols || f == scoreCol || f == bookmarkCol {
      WantedMember(snapshot, newCols, scoreCol, bookmarkCol, f);
    }
  }

  /** The visible fields after the second loop of resetColumns: each field of the layout that
      is not visible yet is appended, in layout order. */
  function ShowAll(visible: seq<string>, cols: seq<string>): seq<string>
  {
    if cols == [] then visible
    else
      var shown := ShowAll(visible, cols[..|cols| - 1]);
      var f := cols[|cols| - 1];
      if f in shown then shown else shown + [f]
  }

  /** A field is visible afterwards exactly when it was visible before or is in the layout. */
  lemma {:induction false} ShowAllMember(visible: seq<string>, cols: seq<string>, f: string)
    ensures f in ShowAll(visible, cols) <==> f in visible || f in cols
  {
    if cols != [] {
      var init := cols[..|cols| - 1];
      ShowAllMember(visible, init, f);
      assert cols == init + [cols[|cols| - 1]];
    }
  }

  /** The fields visible before keep their places at the front, and every field appended
      after them occurs nowhere before it. */
  lemma {:induction false} ShowAllExtends(visible: seq<string>, cols: seq<string>)
    ensures var r := ShowAll(visible, cols);
            && |visible| <= |r| && r[..|visible|] == visible
            && forall i | |visible| <= i < |r| :: r[i] !in r[..i]
  {
    if cols != [] {
      var init := cols[..|cols| - 1];
      ShowAllExtends(visible, init);
      var shown := ShowAll(visible, init);
      var f := cols[|cols| - 1];
      if f !in shown {
        var r := shown + [f];
        assert r[..|shown|] == shown;
        assert r[..|visible|] == shown[..|visible|];
        forall i | |visible| <= i < |r| ensures r[i] !in r[..i] {
          if i < |shown| {
            assert r[..i] == shown[..i];
          }
        }
      }
    }
  }

  /** The widths remembered by the first loop of resetColumns over `fields`: each field it
      hides that the view shows has its current width recorded, the later one winning. */
  function HiddenWidths(widths: map<string, int>, fields: seq<string>, newCols: seq<string>,
                        scoreCol: string, bookmarkCol: string, view: string -> ViewColumn): map<string, int>
  {
    if fields == [] then widths
    else
      var prev := HiddenWidths(widths, fields[..|fields| - 1], newCols, scoreCol, bookmarkCol, view);
      var f := fields[|fields| - 1];
      if f !in newCols && f != scoreCol && f != bookmarkCol && view(f).InView? then prev[f := view(f).width] else prev
  }

  /** The model index the first loop of resetColumns leaves in lastModelIdx: updateCol sets it
      for every field it hides, so it is that of the last hidden field, or `idx` when none is. */
  function HiddenIdx(idx: int, fields: seq<string>, newCols: seq<string>, scoreCol: string, bookmarkCol: string,
                     loaded: seq<string>, fixedCols: nat): int
  {
    if fields == [] then idx
    else
      var prev := HiddenIdx(idx, fields[..|fields| - 1], newCols, scoreCol, bookmarkCol, loaded, fixedCols);
      var f := fields[|fields| - 1];
      if f !in newCols && f != scoreCol && f != bookmarkCol then fixedCols + IndexOf(loaded, f) else prev
  }

  /** One more field of the first loop: a hidden field sets the index. */
  lemma HiddenIdxSnoc(idx: int, fields: seq<string>, i: nat, newCols: seq<string>, scoreCol: string, bookmarkCol: string,
                      loaded: seq<string>, fixedCols: nat)
    requires i < |fields|
    ensures var f := fields[i];
            HiddenIdx(idx, fields[..i + 1], newCols, scoreCol, bookmarkCol, loaded, fixedCols)
              == if f !in newCols && f != scoreCol && f != bookmarkCol then fixedCols + IndexOf(loaded, f)
                 else HiddenIdx(idx, fields[..i], newCols, scoreCol, bookmarkCol, loaded, fixedCols)
  {
    assert fields[..i + 1][..i] == fields[..i];
  }

  /** When the first loop hides nothing, lastModelIdx stays as it was. */
  lemma {:induction false} HiddenIdxNoneHidden(idx: int, fields: seq<string>, newCols: seq<string>, scoreCol: string,
                                               bookmarkCol: string, loaded: seq<string>, fixedCols: nat)
    requires forall k | 0 <= k < |fields| :: fields[k] in newCols || fields[k] == scoreCol || fields[k] == bookmarkCol
    ensures HiddenIdx(idx, fields, newCols, scoreCol, bookmarkCol, loaded, fixedCols) == idx
  {
    if fields != [] {
      var init := fields[..|fields| - 1];
      assert forall k | 0 <= k < |init| :: init[k] == fields[k];
      HiddenIdxNoneHidden(idx, init, newCols, scoreCol, bookmarkCol, loaded, fixedCols);
    }
  }

  /** The model index the second loop of resetColumns leaves: that of the last field it
      shows, or `idx` when it shows none. */
  function ShownIdx(idx: int, added: seq<string>, loaded: seq<string>, fixedCols: nat): int
  {
    if added == [] then idx else fixedCols + IndexOf(loaded, added[|added| - 1])
  }

  /** The second loop of resetColumns has handled cols[..j]: the visible fields, the loaded
      fields and lastModelIdx are those that showing those fields gives. */
  ghost predicate ShowProgress(visible0: seq<string>, loaded0: seq<string>, idx0: int, cols: seq<string>, j: nat,
                               fixedCols: nat, visible: seq<string>, loaded: seq<string>, idx: int)
  {
    && j <= |cols|
    && visible == ShowAll(visible0, cols[..j])
    && loaded == ShowAll(loaded0, Appended(visible0, cols[..j]))
    && idx == ShownIdx(idx0, Appended(visible0, cols[..j]), loaded, fixedCols)
  }

  /** One more layout field that is visible already: nothing changes and the progress holds. */
  lemma ShowKeepStep(visible0: seq<string>, loaded0: seq<string>, idx0: int, cols: seq<string>, j: nat, fixedCols: nat,
                     visible: seq<string>, loaded: seq<string>, idx: int)
    requires j < |cols| && ShowProgress(visible0, loaded0, idx0, cols, j, fixedCols, visible, loaded, idx)
    requires cols[j] in visible
    ensures ShowProgress(visible0, loaded0, idx0, cols, j + 1, fixedCols, visible, loaded, idx)
  {
    var prefix := cols[..j + 1];
    assert prefix[..j] == cols[..j] && prefix[j] == cols[j];
    ShowAllSplit(visible0, cols[..j]);
    assert ShowAll(visible0, prefix) == visible;
    assert Appended(visible0, prefix) == Appended(visible0, cols[..j]);
  }

  /** A layout field that is not visible yet is shown and appended by the next step. */
  lemma ShowNewSnoc(visible0: seq<string>, cols: seq<string>, j: nat)
    requires j < |cols| && cols[j] !in ShowAll(visible0, cols[..j])
    ensures ShowAll(visible0, cols[..j + 1]) == ShowAll(visible0, cols[..j]) + [cols[j]]
    ensures Appended(visible0, cols[..j + 1]) == Appended(visible0, cols[..j]) + [cols[j]]
  {
    assert cols[..j + 1][..j] == cols[..j];
    ShowAllSplit(visible0, cols[..j]);
  }

  /** Showing one more field on top of a list adds it unless the list has it. */
  lemma ShowAllSnoc(loaded0: seq<string>, added: seq<string>, f: string)
    ensures ShowAll(loaded0, added + [f])
              == if f in ShowAll(loaded0, added) then ShowAll(loaded0, added) else ShowAll(loaded0, added) + [f]
  {
    assert (added + [f])[..|added|] == added;
  }

  /** One more layout field that is not visible: updateCol appends it to the visible fields,
      to the loaded ones when it is new, and points lastModelIdx at it; the progress holds. */
  lemma ShowAddStep(visible0: seq<string>, loaded0: seq<string>, idx0: int, cols: seq<string>, j: nat, fixedCols: nat,
                    visible: seq<string>, loaded: seq<string>, idx: int, loaded': seq<string>, idx': int)
    requires j < |cols| && ShowProgress(visible0, loaded0, idx0, cols, j, fixedCols, visible, loaded, idx)
    requires cols[j] !in visible
    requires loaded' == (if cols[j] in loaded then loaded else loaded + [cols[j]])
    requires idx' == fixedCols + IndexOf(loaded', cols[j])
    ensures ShowProgress(visible0, loaded0, idx0, cols, j + 1, fixedCols, visible + [cols[j]], loaded', idx')
  {
    ShowNewSnoc(visible0, cols, j);
    ShowAllSnoc(loaded0, Appended(visible0, cols[..j]), cols[j]);
  }

  /** One more field of the first loop: its width is recorded when it is hidden and shown. */
  lemma HiddenWidthsSnoc(widths: map<string, int>, fields: seq<string>, i: nat, newCols: seq<string>,
                         scoreCol: string, bookmarkCol: string, view: string -> ViewColumn)
    requires i < |fields|
    ensures var prev := HiddenWidths(widths, fields[..i], newCols, scoreCol, bookmarkCol, view);
            var f := fields[i];
            HiddenWidths(widths, fields[..i + 1], newCols, scoreCol, bookmarkCol, view)
              == if f !in newCols && f != scoreCol && f != bookmarkCol && view(f).InView? then prev[f := view(f).width] else prev
  {
    assert fields[..i + 1][..i] == fields[..i];
  }

  /** A width changes only for a hidden field the view shows, and every such field has one. */
  lemma {:induction false} HiddenWidthsKeys(widths: map<string, int>, fields: seq<string>, newCols: seq<string>,
                                            scoreCol: string, bookmarkCol: string, view: string -> ViewColumn, f: string)
    ensures var r := HiddenWidths(widths, fields, newCols, scoreCol, bookmarkCol, view);
            && (f in r <==> f in widths || (f in fields && f !in newCols && f != scoreCol && f != bookmarkCol && view(f).InView?))
            && (f in r && (f in newCols || f == scoreCol || f == bookmarkCol || view(f).NotInView? || f !in fields) ==>
                  r[f] == widths[f])
            && (f in r && f in fields && f !in newCols && f != scoreCol && f != bookmarkCol && view(f).InView? ==>
                  r[f] == view(f).width)
  {
    if fields != [] {
      var init := fields[..|fields| - 1];
      HiddenWidthsKeys(widths, init, newCols, scoreCol, bookmarkCol, view, f);
      assert fields == init + [fields[|fields| - 1]];
    }
  }

  /** The fields the second loop of resetColumns appends to the visible ones: the layout's
      fields that are neither visible nor appended already, in layout order. updateCol adds
      each of them to the loaded fields as well, when it is not loaded yet. */
  function Appended(visible: seq<string>, cols: seq<string>): seq<string>
  {
    if cols == [] then []
    else
      var prev := Appended(visible, cols[..|cols| - 1]);
      var f := cols[|cols| - 1];
      if f in visible || f in prev then prev else prev + [f]
  }

  /** Showing the layout keeps the visible fields and appends exactly the appended ones. */
  lemma {:induction false} ShowAllSplit(visible: seq<string>, cols: seq<string>)
    ensures ShowAll(visible, cols) == visible + Appended(visible, cols)
  {
    if cols != [] {
      ShowAllSplit(visible, cols[..|cols| - 1]);
    }
  }

  /** A field is appended exactly when it is in the layout and was not visible. */
  lemma {:induction false} AppendedMember(visible: seq<string>, cols: seq<string>, f: string)
    ensures f in Appended(visible, cols) <==> f in cols && f !in visible
  {
    if cols != [] {
      var init := cols[..|cols| - 1];
      AppendedMember(visible, init, f);
      assert cols == init + [cols[|cols| - 1]];
    }
  }

  /** The groups of updateDinamicFields, built and sorted. */
  method FieldGroups(defaults: seq<string>, px: Prefixes, all: seq<string>, indexFields: seq<string>,
                     leq: (string, string) -> bool)
    returns (fieldGroups: seq<seq<string>>)
    ensures fieldGroups == SortAll(Groups(defaults, px, all, indexFields), leq)
  {
    var groups := BuildGroups(defaults, px, all, indexFields);
    fieldGroups := SortGroups(groups, leq);
  }

  /** The closing loop of updateDinamicFields: every group sorted with the collator. */
  method SortGroups(groups: seq<seq<string>>, leq: (string, string) -> bool) returns (sorted: seq<seq<string>>)
    ensures sorted == SortAll(groups, leq)
  {
    sorted := groups;
    var k := 0;
    while k < |sorted|
      invariant 0 <= k <= |sorted| == |groups|
      invariant sorted == SortAll(groups[..k], leq) + groups[k..]
    {
      SortAllStep(groups, k, leq);
      sorted := sorted[k := Sort(sorted[k], leq)];
      k := k + 1;
    }
    assert groups[..k] == groups;
  }

  /** Sorting group k in place extends the sorted prefix by one group. */
  lemma SortAllStep(groups: seq<seq<string>>, k: nat, leq: (string, string) -> bool)
    requires k < |groups|
    ensures var done := SortAll(groups[..k], leq) + groups[k..];
            done[k := Sort(groups[k], leq)] == SortAll(groups[..k + 1], leq) + groups[k + 1..]
  {
    var prefix := SortAll(groups[..k], leq);
    assert groups[..k + 1][..k] == groups[..k] && groups[..k + 1][k] == groups[k];
    assert SortAll(groups[..k + 1], leq) == prefix + [Sort(groups[k], leq)];
    assert groups[k..] == [groups[k]] + groups[k + 1..];
    UpdateAfterPrefix(prefix, groups[k], Sort(groups[k], leq), groups[k + 1..]);
  }

  /** Replacing the element right after a prefix. */
  lemma UpdateAfterPrefix(prefix: seq<seq<string>>, x: seq<string>, y: seq<string>, rest: seq<seq<string>>)
    ensures (prefix + ([x] + rest))[|prefix| := y] == prefix + [y] + rest
  {
    var a := (prefix + ([x] + rest))[|prefix| := y];
    var b := prefix + [y] + rest;
    assert |a| == |b|;
    forall i | 0 <= i < |a| ensures a[i] == b[i] {
      if i < |prefix| {
      } else if i == |prefix| {
      } else {
        assert a[i] == rest[i - |prefix| - 1];
      }
    }
  }

  /** A field absent from a list is found at its end once appended. */
  lemma {:induction false} IndexOfAppendAbsent(s: seq<string>, x: string)
    requires x !in s
    ensures IndexOf(s + [x], x) == |s|
  {
    if s != [] {
      assert (s + [x])[1..] == s[1..] + [x];
      IndexOfAppendAbsent(s[1..], x);
    }
  }


  /** The column manager. The names and lists that come from elsewhere are constants: the
      score and bookmark columns, the number of fixed columns of the table model, the 16
      default fields, the extra fields, the group prefixes and the collator. */
  class ColumnsManager {
    const scoreCol: string
    const bookmarkCol: string
    const fixedCols: nat
    const defaultFields: seq<string>
    const extraFields: seq<string>
    const prefixes: Prefixes
    const collator: (string, string) -> bool

    var indexLoaded: bool
    var lastCase: int
    var indexFields: seq<string>
    var fieldGroups: seq<seq<string>>
    var loadedFields: seq<string>
    var visibleFields: seq<string>
    var initialWidths: seq<int>
    var lastWidths: map<string, int>
    var lastModelIdx: int

    constructor (scoreCol: string, bookmarkCol: string, fixedCols: nat, defaultFields: seq<string>,
                 extraFields: seq<string>, prefixes: Prefixes, collator: (string, string) -> bool)
      requires |defaultFields| == |DefaultWidths|
      ensures this.scoreCol == scoreCol && this.bookmarkCol == bookmarkCol && this.fixedCols == fixedCols
      ensures this.defaultFields == defaultFields && this.extraFields == extraFields
      ensures this.prefixes == prefixes && this.collator == collator
      ensures !indexLoaded && indexFields == [] && fieldGroups == []
      ensures loadedFields == [] && visibleFields == [] && initialWidths == [] && lastWidths == map[]
    {
      this.scoreCol := scoreCol;
      this.bookmarkCol := bookmarkCol;
      this.fixedCols := fixedCols;
      this.defaultFields := defaultFields;
      this.extraFields := extraFields;
      this.prefixes := prefixes;
      this.collator := collator;
      indexLoaded := false;
      lastCase := 0;
      indexFields := [];
      fieldGroups := [];
      loadedFields := [];
      visibleFields := [];
      initialWidths := [];
      lastWidths := map[];
      lastModelIdx := 0;
    }

    /** loadSavedCols: prune the saved columns the case lacks, keeping the widths aligned, or
        fall back to the 16 default fields and widths when nothing was saved. */
    method LoadSavedCols(saved: SavedColumns)
      requires saved.Read? ==> |saved.visibleFields| == |saved.initialWidths|
      modifies this
      ensures saved.Read? && saved.visibleFields != [] ==>
                && visibleFields == KeptFields(saved.visibleFields, indexFields, scoreCol, bookmarkCol)
                && initialWidths == KeptWidths(saved.visibleFields, saved.initialWidths, indexFields, scoreCol, bookmarkCol)
                && loadedFields == visibleFields
      ensures saved.Read? && saved.visibleFields == [] ==>
                loadedFields == defaultFields && visibleFields == defaultFields && initialWidths == DefaultWidths
      ensures saved.Unavailable? ==>
                loadedFields == old(loadedFields) + defaultFields && visibleFields == loadedFields
                && initialWidths == DefaultWidths
      ensures indexLoaded == old(indexLoaded) && lastCase == old(lastCase)
      ensures indexFields == old(indexFields) && fieldGroups == old(fieldGroups)
      ensures lastWidths == old(lastWidths) && lastModelIdx == old(lastModelIdx)
    {
      var lastColsOk := false;
      if saved.Read? {
        visibleFields, initialWidths := saved.visibleFields, saved.initialWidths;
        loadedFields := visibleFields;
        if |loadedFields| > 0 {
          lastColsOk := true;
          var removed;
          visibleFields, initialWidths, removed := PruneSaved(saved.visibleFields, saved.initialWidths, indexFields, scoreCol, bookmarkCol);
          if removed > 0 {
            loadedFields := visibleFields;
          } else {
            KeptNothingRemoved(saved.visibleFields, saved.initialWidths, indexFields, scoreCol, bookmarkCol);
          }
        }
      }
      if !lastColsOk {
        loadedFields := loadedFields + defaultFields;
        visibleFields := loadedFields;
        initialWidths := DefaultWidths;
      }
    }

    /** updateDinamicFields: reload the index fields when the case changed, then rebuild the
        groups from the sorted, duplicate-free extra attributes and the index fields, and sort
        every group with the collator. */
    method UpdateDinamicFields(appCase: int, caseFields: seq<string>, itemExtraAttributes: seq<string>)
      modifies this
      ensures indexLoaded && lastCase == appCase
      ensures indexFields == if !old(indexLoaded) || old(lastCase) != appCase then caseFields else old(indexFields)
      ensures fieldGroups == SortAll(Groups(defaultFields, prefixes, SortedSet(extraFields + itemExtraAttributes), indexFields), collator)
      ensures loadedFields == old(loadedFields) && visibleFields == old(visibleFields)
      ensures initialWidths == old(initialWidths) && lastWidths == old(lastWidths) && lastModelIdx == old(lastModelIdx)
    {
      if !indexLoaded || lastCase != appCase {
        lastCase := appCase;
        indexFields := caseFields;
        indexLoaded := true;
      }
      fieldGroups := FieldGroups(defaultFields, prefixes, SortedSet(extraFields + itemExtraAttributes), indexFields, collator);
    }

    /** updateCol: show a column (it is appended to the visible fields, and to the loaded
        fields when it is new) or hide it (its first occurrence leaves the visible fields and
        its width is remembered when the view shows it); lastModelIdx is the column's index
        in the table model, after the fixed columns. */
    method UpdateCol(colName: string, insert: bool, view: ViewColumn)
      modifies this
      ensures insert ==> visibleFields == old(visibleFields) + [colName]
      ensures insert && colName !in old(loadedFields) ==> loadedFields == old(loadedFields) + [colName]
      ensures insert && colName in old(loadedFields) ==> loadedFields == old(loadedFields)
      ensures insert ==> 0 <= lastModelIdx - fixedCols < |loadedFields| && loadedFields[lastModelIdx - fixedCols] == colName
      ensures insert ==> lastModelIdx == fixedCols + IndexOf(loadedFields, colName)
      ensures insert ==> lastWidths == old(lastWidths)
      ensures !insert ==> visibleFields == RemoveFirst(old(visibleFields), colName) && loadedFields == old(loadedFields)
      ensures !insert ==> lastModelIdx == fixedCols + IndexOf(old(loadedFields), colName)
      ensures !insert && view.InView? ==> lastWidths == old(lastWidths)[colName := view.width]
      ensures !insert && view.NotInView? ==> lastWidths == old(lastWidths)
      ensures indexLoaded == old(indexLoaded) && lastCase == old(lastCase)
      ensures indexFields == old(indexFields) && fieldGroups == old(fieldGroups) && initialWidths == old(initialWidths)
    {
      var modelIdx := IndexOf(loadedFields, colName);
      if insert {
        visibleFields := visibleFields + [colName];
        if modelIdx == -1 {
          IndexOfAppendAbsent(loadedFields, colName);
          loadedFields := loadedFields + [colName];
          modelIdx := fixedCols + |loadedFields| - 1;
        } else {
          modelIdx := modelIdx + fixedCols;
        }
      } else {
        visibleFields := RemoveFirst(visibleFields, colName);
        modelIdx := modelIdx + fixedCols;
        if view.InView? {
          lastWidths := lastWidths[colName := view.width];
        }
      }
      lastModelIdx := modelIdx;
    }

    /** The list part of resetColumns: hide every visible field that is neither in the new
        layout nor the score or bookmark column, then show every field of the new layout that
        is not visible. Afterwards the visible fields are the kept ones in their old order
        followed by the missing layout fields, and no loaded field is lost. */
    method ResetColumns(newCols: seq<string>, view: string -> ViewColumn)
      modifies this
      ensures visibleFields == ShowAll(Wanted(old(visibleFields), newCols, scoreCol, bookmarkCol), newCols)
      ensures forall f :: f in visibleFields <==> f in newCols || (f in old(visibleFields) && (f == scoreCol || f == bookmarkCol))
      ensures loadedFields == ShowAll(old(loadedFields), Appended(Wanted(old(visibleFields), newCols, scoreCol, bookmarkCol), newCols))
      ensures lastWidths == HiddenWidths(old(lastWidths), old(visibleFields), newCols, scoreCol, bookmarkCol, view)
      ensures lastModelIdx == ShownIdx(HiddenIdx(old(lastModelIdx), old(visibleFields), newCols, scoreCol, bookmarkCol,
                                                 old(loadedFields), fixedCols),
                                       Appended(Wanted(old(visibleFields), newCols, scoreCol, bookmarkCol), newCols),
                                       loadedFields, fixedCols)
      ensures forall f | f in old(loadedFields) :: f in loadedFields
      ensures indexFields == old(indexFields) && fieldGroups == old(fieldGroups) && initialWidths == old(initialWidths)
    {
      HideUnwanted(newCols, view);
      ghost var hidden := visibleFields;
      ShowMissing(newCols, view);
      forall f ensures f in visibleFields <==> f in newCols || (f in old(visibleFields) && (f == scoreCol || f == bookmarkCol)) {
        WantedMember(old(visibleFields), newCols, scoreCol, bookmarkCol, f);
        ShowAllMember(hidden, newCols, f);
      }
    }

    /** The first loop of resetColumns, over a copy of the visible fields. */
    method HideUnwanted(newCols: seq<string>, view: string -> ViewColumn)
      modifies this
      ensures visibleFields == Wanted(old(visibleFields), newCols, scoreCol, bookmarkCol)
      ensures OnlyWanted(visibleFields, newCols, scoreCol, bookmarkCol)
      ensures loadedFields == old(loadedFields)
      ensures lastWidths == HiddenWidths(old(lastWidths), old(visibleFields), newCols, scoreCol, bookmarkCol, view)
      ensures lastModelIdx == HiddenIdx(old(lastModelIdx), old(visibleFields), newCols, scoreCol, bookmarkCol,
                                        old(loadedFields), fixedCols)
      ensures indexFields == old(indexFields) && fieldGroups == old(fieldGroups) && initialWidths == old(initialWidths)
    {
      var snapshot := visibleFields;
      var i := 0;
      HideStart(snapshot, newCols, scoreCol, bookmarkCol);
      while i < |snapshot|
        invariant 0 <= i <= |snapshot|
        invariant HideProgress(snapshot, i, visibleFields, newCols, scoreCol, bookmarkCol)
        invariant loadedFields == old(loadedFields)
        invariant lastWidths == HiddenWidths(old(lastWidths), snapshot[..i], newCols, scoreCol, bookmarkCol, view)
        invariant lastModelIdx == HiddenIdx(old(lastModelIdx), snapshot[..i], newCols, scoreCol, bookmarkCol,
                                            loadedFields, fixedCols)
        invariant indexFields == old(indexFields) && fieldGroups == old(fieldGroups) && initialWidths == old(initialWidths)
      {
        var field := snapshot[i];
        HiddenWidthsSnoc(old(lastWidths), snapshot, i, newCols, scoreCol, bookmarkCol, view);
        HiddenIdxSnoc(old(lastModelIdx), snapshot, i, newCols, scoreCol, bookmarkCol, loadedFields, fixedCols);
        if field !in newCols && field != scoreCol && field != bookmarkCol {
          HideDropStep(snapshot, i, visibleFields, newCols, scoreCol, bookmarkCol);
        } else {
          HideKeepStep(snapshot, i, visibleFields, newCols, scoreCol, bookmarkCol);
        }
        HideIfUnwanted(field, newCols, view(field));
        i := i + 1;
      }
      HideDone(snapshot, visibleFields, newCols, scoreCol, bookmarkCol);
      assert snapshot[..i] == snapshot;
    }

    /** The body of the first loop of resetColumns: a field that is neither in the layout nor
        the score or bookmark column is hidden with updateCol; any other field is left alone. */
    method HideIfUnwanted(field: string, newCols: seq<string>, view: ViewColumn)
      modifies this
      ensures field !in newCols && field != scoreCol && field != bookmarkCol ==>
                && visibleFields == RemoveFirst(old(visibleFields), field)
                && lastWidths == (if view.InView? then old(lastWidths)[field := view.width] else old(lastWidths))
                && lastModelIdx == fixedCols + IndexOf(loadedFields, field)
      ensures field in newCols || field == scoreCol || field == bookmarkCol ==>
                visibleFields == old(visibleFields) && lastWidths == old(lastWidths) && lastModelIdx == old(lastModelIdx)
      ensures loadedFields == old(loadedFields)
      ensures indexFields == old(indexFields) && fieldGroups == old(fieldGroups) && initialWidths == old(initialWidths)
    {
      if field !in newCols && field != scoreCol && field != bookmarkCol {
        UpdateCol(field, false, view);
      }
    }

    /** The second loop of resetColumns: show each field of the layout that is not visible.
        The loaded fields are kept and each appended field that was not loaded is added after
        them, in layout order. */
    method ShowMissing(newCols: seq<string>, view: string -> ViewColumn)
      modifies this
      ensures visibleFields == ShowAll(old(visibleFields), newCols)
      ensures loadedFields == ShowAll(old(loadedFields), Appended(old(visibleFields), newCols))
      ensures forall f :: f in loadedFields <==> f in old(loadedFields) || (f in newCols && f !in old(visibleFields))
      ensures forall f | f in old(loadedFields) :: f in loadedFields
      ensures lastWidths == old(lastWidths)
      ensures lastModelIdx == ShownIdx(old(lastModelIdx), Appended(old(visibleFields), newCols), loadedFields, fixedCols)
      ensures indexFields == old(indexFields) && fieldGroups == old(fieldGroups) && initialWidths == old(initialWidths)
    {
      var j := 0;
      while j < |newCols|
        invariant 0 <= j <= |newCols|
        invariant ShowProgress(old(visibleFields), old(loadedFields), old(lastModelIdx), newCols, j, fixedCols,
                               visibleFields, loadedFields, lastModelIdx)
        invariant lastWidths == old(lastWidths)
        invariant indexFields == old(indexFields) && fieldGroups == old(fieldGroups) && initialWidths == old(initialWidths)
      {
        ghost var visible, loaded, idx := visibleFields, loadedFields, lastModelIdx;
        ShowIfMissing(newCols[j], view(newCols[j]));
        if newCols[j] in visible {
          ShowKeepStep(old(visibleFields), old(loadedFields), old(lastModelIdx), newCols, j, fixedCols,
                       visible, loaded, idx);
        } else {
          ShowAddStep(old(visibleFields), old(loadedFields), old(lastModelIdx), newCols, j, fixedCols,
                      visible, loaded, idx, loadedFields, lastModelIdx);
        }
        j := j + 1;
      }
      assert newCols[..j] == newCols;
      forall f ensures f in loadedFields <==> f in old(loadedFields) || (f in newCols && f !in old(visibleFields)) {
        ShowAllMember(old(loadedFields), Appended(old(visibleFields), newCols), f);
        AppendedMember(old(visibleFields), newCols, f);
      }
    }

    /** The body of the second loop of resetColumns: a layout field that is not visible is
        shown with updateCol; a visible one is left alone. */
    method ShowIfMissing(field: string, view: ViewColumn)
      modifies this
      ensures field in old(visibleFields) ==>
                visibleFields == old(visibleFields) && loadedFields == old(loadedFields) && lastModelIdx == old(lastModelIdx)
      ensures field !in old(visibleFields) ==>
                && visibleFields == old(visibleFields) + [field]
                && loadedFields == (if field in old(loadedFields) then old(loadedFields) else old(loadedFields) + [field])
                && lastModelIdx == fixedCols + IndexOf(loadedFields, field)
      ensures lastWidths == old(lastWidths)
      ensures indexFields == old(indexFields) && fieldGroups == old(fieldGroups) && initialWidths == old(initialWidths)
    {
      if field !in visibleFields {
        UpdateCol(field, true, view);
      }
    }

    /** resetToDefaultLayout */
    method ResetToDefaultLayout(view: string -> ViewColumn)
      modifies this
      ensures visibleFields == ShowAll(Wanted(old(visibleFields), defaultFields, scoreCol, bookmarkCol), defaultFields)
      ensures forall f :: f in visibleFields <==> f in defaultFields || (f in old(visibleFields) && (f == scoreCol || f == bookmarkCol))
      ensures loadedFields == ShowAll(old(loadedFields), Appended(Wanted(old(visibleFields), defaultFields, scoreCol, bookmarkCol), defaultFields))
      ensures lastWidths == HiddenWidths(old(lastWidths), old(visibleFields), defaultFields, scoreCol, bookmarkCol, view)
      ensures lastModelIdx == ShownIdx(HiddenIdx(old(lastModelIdx), old(visibleFields), defaultFields, scoreCol, bookmarkCol,
                                                 old(loadedFields), fixedCols),
                                       Appended(Wanted(old(visibleFields), defaultFields, scoreCol, bookmarkCol), defaultFields),
                                       loadedFields, fixedCols)
      ensures forall f | f in old(loadedFields) :: f in loadedFields
      ensures indexFields == old(indexFields) && fieldGroups == old(fieldGroups) && initialWidths == old(initialWidths)
    {
      ResetColumns(defaultFields, view);
    }
  }
}
