/** The field groups of the column chooser (ColumnsManager.updateDinamicFields): extra
    attributes are split by prefix into regex, language, hash-database and advanced fields,
    index fields into metadata groups, the index fields in no group form "Other", and every
    group is sorted. The prefixes are the constants of the tasks and parsers that define
    them, taken as parameters. */
module ColumnGroups {
  import opened Text
  import opened Ordering

  /** The prefixes and the set of communication properties the groups are chosen by. */
  datatype Prefixes = Prefixes(
    regex: string, language: string, hashDb: string, photoDna: string,
    audio: string, image: string, video: string, pdf: string, office: string, html: string,
    ner: string, p2p: string, ufed: string, message: string, common: string,
    communicationProps: set<string>)

  /** The group an extra attribute goes to. */
  datatype ExtraKind = RegexAttr | LanguageAttr | HashDbAttr | AdvancedAttr

  /** The first matching prefix decides; without one the attribute is an advanced field. */
  function ExtraKindOf(px: Prefixes, f: string): ExtraKind
  {
    if StartsWith(f, px.regex) then RegexAttr
    else if StartsWith(f, px.language) then LanguageAttr
    else if StartsWith(f, px.hashDb) || StartsWith(f, px.photoDna) then HashDbAttr
    else AdvancedAttr
  }

  /** The metadata group an index field goes to, if any. */
  datatype MetaGroup = Audio | Image | Video | Pdf | Office | Html | Ner | P2p | Ufed | Communication | Common | NoMetaGroup

  /** The first matching prefix decides; a field matching none is in no metadata group. */
  function MetaGroupOf(px: Prefixes, f: string): MetaGroup
  {
    if StartsWith(f, px.audio) then Audio
    else if StartsWith(f, px.image) then Image
    else if StartsWith(f, px.video) then Video
    else if StartsWith(f, px.pdf) then Pdf
    else if StartsWith(f, px.office) then Office
    else if StartsWith(f, px.html) then Html
    else if StartsWith(f, px.ner) then Ner
    else if StartsWith(f, px.p2p) then P2p
    else if StartsWith(f, px.ufed) then Ufed
    else if StartsWith(f, px.message) || f in px.communicationProps then Communication
    else if StartsWith(f, px.common) then Common
    else NoMetaGroup
  }

  /** The attributes of one kind, in order. */
  function OfKind(px: Prefixes, xs: seq<string>, k: ExtraKind): seq<string>
  {
    if xs == [] then []
    else OfKind(px, xs[..|xs| - 1], k) + (if ExtraKindOf(px, xs[|xs| - 1]) == k then [xs[|xs| - 1]] else [])
  }

  /** The fields of one metadata group, in order. */
  function InGroup(px: Prefixes, xs: seq<string>, g: MetaGroup): seq<string>
  {
    if xs == [] then []
    else InGroup(px, xs[..|xs| - 1], g) + (if MetaGroupOf(px, xs[|xs| - 1]) == g then [xs[|xs| - 1]] else [])
  }

  /** An attribute is in the list of its own kind and in no other one. */
  lemma {:induction false} OfKindMember(px: Prefixes, xs: seq<string>, k: ExtraKind, f: string)
    ensures f in OfKind(px, xs, k) <==> f in xs && ExtraKindOf(px, f) == k
  {
    if xs != [] {
      OfKindMember(px, xs[..|xs| - 1], k, f);
      assert xs == xs[..|xs| - 1] + [xs[|xs| - 1]];
    }
  }

  lemma OfKindLast(px: Prefixes, xs: seq<string>, k: ExtraKind, x: string)
    requires xs != []
    ensures multiset(OfKind(px, xs, k))[x]
         == multiset(OfKind(px, xs[..|xs| - 1], k))[x] + (if ExtraKindOf(px, xs[|xs| - 1]) == k && xs[|xs| - 1] == x then 1 else 0)
  {
  }

  lemma MultisetLast(xs: seq<string>, x: string)
    requires xs != []
    ensures multiset(xs)[x] == multiset(xs[..|xs| - 1])[x] + (if xs[|xs| - 1] == x then 1 else 0)
  {
    assert xs == xs[..|xs| - 1] + [xs[|xs| - 1]];
  }

  lemma {:induction false} ExtraCount(px: Prefixes, xs: seq<string>, x: string)
    ensures multiset(OfKind(px, xs, RegexAttr))[x] + multiset(OfKind(px, xs, LanguageAttr))[x]
          + multiset(OfKind(px, xs, HashDbAttr))[x] + multiset(OfKind(px, xs, AdvancedAttr))[x] == multiset(xs)[x]
  {
    if xs != [] {
      ExtraCount(px, xs[..|xs| - 1], x);
      MultisetLast(xs, x);
      OfKindLast(px, xs, RegexAttr, x);
      OfKindLast(px, xs, LanguageAttr, x);
      OfKindLast(px, xs, HashDbAttr, x);
      OfKindLast(px, xs, AdvancedAttr, x);
    }
  }

  /** The four lists split the attributes: every occurrence lands in exactly one of them. */
  lemma ExtraPartition(px: Prefixes, xs: seq<string>)
    ensures multiset(OfKind(px, xs, RegexAttr)) + multiset(OfKind(px, xs, LanguageAttr))
          + multiset(OfKind(px, xs, HashDbAttr)) + multiset(OfKind(px, xs, AdvancedAttr)) == multiset(xs)
  {
    forall x ensures (multiset(OfKind(px, xs, RegexAttr)) + multiset(OfKind(px, xs, LanguageAttr))
                    + multiset(OfKind(px, xs, HashDbAttr)) + multiset(OfKind(px, xs, AdvancedAttr)))[x] == multiset(xs)[x] {
      ExtraCount(px, xs, x);
    }
  }

  /** An index field is in the list of its metadata group and in no other one. */
  lemma {:induction false} InGroupMember(px: Prefixes, xs: seq<string>, g: MetaGroup, f: string)
    ensures f in InGroup(px, xs, g) <==> f in xs && MetaGroupOf(px, f) == g
  {
    if xs != [] {
      InGroupMember(px, xs[..|xs| - 1], g, f);
      assert xs == xs[..|xs| - 1] + [xs[|xs| - 1]];
    }
  }

  /** No index field is in two metadata groups. */
  lemma AtMostOneMetaGroup(px: Prefixes, xs: seq<string>, f: string, g1: MetaGroup, g2: MetaGroup)
    requires f in InGroup(px, xs, g1) && f in InGroup(px, xs, g2)
    ensures g1 == g2
  {
    InGroupMember(px, xs, g1, f);
    InGroupMember(px, xs, g2, f);
  }

  /** The fields in none of the groups, in their own order. */
  function Others(xs: seq<string>, groups: seq<seq<string>>): seq<string>
  {
    if xs == [] then []
    else
      var f := xs[|xs| - 1];
      Others(xs[..|xs| - 1], groups) + (if forall k | 0 <= k < |groups| :: f !in groups[k] then [f] else [])
  }

  lemma {:induction false} OthersMember(xs: seq<string>, groups: seq<seq<string>>, f: string)
    ensures f in Others(xs, groups) <==> f in xs && forall k | 0 <= k < |groups| :: f !in groups[k]
  {
    if xs != [] {
      OthersMember(xs[..|xs| - 1], groups, f);
      assert xs == xs[..|xs| - 1] + [xs[|xs| - 1]];
    }
  }

  /** "Other" keeps the order of the index fields: it distributes over concatenation. */
  lemma {:induction false} OthersAppend(a: seq<string>, b: seq<string>, groups: seq<seq<string>>)
    ensures Others(a + b, groups) == Others(a, groups) + Others(b, groups)
    decreases |b|
  {
    if b == [] {
      assert a + b == a;
    } else {
      assert (a + b)[..|a + b| - 1] == a + b[..|b| - 1];
      OthersAppend(a, b[..|b| - 1], groups);
    }
  }

  /** The distinct elements, each at its first occurrence. */
  function Dedup(s: seq<string>): seq<string>
  {
    if s == [] then []
    else Dedup(s[..|s| - 1]) + (if s[|s| - 1] in s[..|s| - 1] then [] else [s[|s| - 1]])
  }

  predicate Distinct(s: seq<string>)
  {
    forall i, j | 0 <= i < j < |s| :: s[i] != s[j]
  }

  lemma {:induction false} DedupMember(s: seq<string>, x: string)
    ensures x in Dedup(s) <==> x in s
  {
    if s != [] {
      DedupMember(s[..|s| - 1], x);
      assert s == s[..|s| - 1] + [s[|s| - 1]];
    }
  }

  lemma {:induction false} DedupDistinct(s: seq<string>)
    ensures Distinct(Dedup(s))
  {
    if s != [] {
      var init := s[..|s| - 1];
      DedupDistinct(init);
      DedupMember(init, s[|s| - 1]);
    }
  }

  /** Dropping repetitions keeps a sorted sequence sorted. */
  lemma {:induction false} DedupSorted(s: seq<string>, leq: (string, string) -> bool)
    requires SortedBy(s, leq)
    ensures SortedBy(Dedup(s), leq)
  {
    if s != [] {
      var init := s[..|s| - 1];
      var last := s[|s| - 1];
      assert SortedBy(init, leq);
      DedupSorted(init, leq);
      forall x | x in Dedup(init) ensures leq(x, last) {
        DedupMember(init, x);
        var k :| 0 <= k < |init| && init[k] == x;
        assert s[k] == x;
      }
    }
  }

  /** A TreeSet of strings turned into an array: the distinct strings in String order. */
  function SortedSet(s: seq<string>): (r: seq<string>)
  {
    Dedup(Sort(s, LexLeq))
  }

  lemma SortedSetProperties(s: seq<string>)
    ensures forall x :: x in SortedSet(s) <==> x in s
    ensures Distinct(SortedSet(s)) && SortedBy(SortedSet(s), LexLeq)
  {
    LexIsTotalPreorder();
    SortSorted(s, LexLeq);
    DedupDistinct(Sort(s, LexLeq));
    DedupSorted(Sort(s, LexLeq), LexLeq);
    forall x ensures x in SortedSet(s) <==> x in s {
      DedupMember(Sort(s, LexLeq), x);
      assert x in multiset(Sort(s, LexLeq)) <==> x in multiset(s);
    }
  }

  /** groupNames: the message keys of the 18 group titles. */
  const GroupNames: seq<string> := [
    "ColumnsManager.Basic", "ColumnsManager.HashDB", "ColumnsManager.Advanced", "ColumnsManager.Common",
    "ColumnsManager.Communication", "ColumnsManager.Audio", "ColumnsManager.Image", "ColumnsManager.Video",
    "ColumnsManager.PDF", "ColumnsManager.Office", "ColumnsManager.HTML", "ColumnsManager.Regex",
    "ColumnsManager.Language", "ColumnsManager.NamedEntity", "ColumnsManager.PeerToPeer", "ColumnsManager.UFED",
    "ColumnsManager.Other", "ColumnsManager.All"]

  /** The 16 custom groups, in the order of their titles. */
  function CustomGroups(defaults: seq<string>, px: Prefixes, extraAttrs: seq<string>, indexFields: seq<string>): (r: seq<seq<string>>)
    ensures |r| == 16
  {
    [defaults,
     OfKind(px, extraAttrs, HashDbAttr), OfKind(px, extraAttrs, AdvancedAttr),
     InGroup(px, indexFields, Common), InGroup(px, indexFields, Communication),
     InGroup(px, indexFields, Audio), InGroup(px, indexFields, Image), InGroup(px, indexFields, Video),
     InGroup(px, indexFields, Pdf), InGroup(px, indexFields, Office), InGroup(px, indexFields, Html),
     OfKind(px, extraAttrs, RegexAttr), OfKind(px, extraAttrs, LanguageAttr),
     InGroup(px, indexFields, Ner), InGroup(px, indexFields, P2p), InGroup(px, indexFields, Ufed)]
  }

  /** The custom groups follow the titles Basic, HashDB, Advanced, Common, Communication,
      Audio, Image, Video, PDF, Office, HTML, Regex, Language, NamedEntity, PeerToPeer and
      UFED. Basic is the defaults, and HashDB, Advanced, Regex and Language hold exactly the
      extra attributes of their kind. */
  lemma CustomExtraGroups(defaults: seq<string>, px: Prefixes, extraAttrs: seq<string>, indexFields: seq<string>, f: string)
    ensures var r := CustomGroups(defaults, px, extraAttrs, indexFields);
            && r[0] == defaults
            && (f in r[1] <==> f in extraAttrs && ExtraKindOf(px, f) == HashDbAttr)
            && (f in r[2] <==> f in extraAttrs && ExtraKindOf(px, f) == AdvancedAttr)
            && (f in r[11] <==> f in extraAttrs && ExtraKindOf(px, f) == RegexAttr)
            && (f in r[12] <==> f in extraAttrs && ExtraKindOf(px, f) == LanguageAttr)
  {
    var r := CustomGroups(defaults, px, extraAttrs, indexFields);
    assert r[1] == OfKind(px, extraAttrs, HashDbAttr) && r[2] == OfKind(px, extraAttrs, AdvancedAttr);
    assert r[11] == OfKind(px, extraAttrs, RegexAttr) && r[12] == OfKind(px, extraAttrs, LanguageAttr);
    OfKindMember(px, extraAttrs, HashDbAttr, f);
    OfKindMember(px, extraAttrs, AdvancedAttr, f);
    OfKindMember(px, extraAttrs, RegexAttr, f);
    OfKindMember(px, extraAttrs, LanguageAttr, f);
  }

  /** The other eleven custom groups hold exactly the index fields of their metadata group. */
  lemma CustomMetaGroups(defaults: seq<string>, px: Prefixes, extraAttrs: seq<string>, indexFields: seq<string>, f: string)
    ensures var r := CustomGroups(defaults, px, extraAttrs, indexFields);
            && (f in r[3] <==> f in indexFields && MetaGroupOf(px, f) == Common)
            && (f in r[4] <==> f in indexFields && MetaGroupOf(px, f) == Communication)
            && (f in r[5] <==> f in indexFields && MetaGroupOf(px, f) == Audio)
            && (f in r[6] <==> f in indexFields && MetaGroupOf(px, f) == Image)
            && (f in r[7] <==> f in indexFields && MetaGroupOf(px, f) == Video)
            && (f in r[8] <==> f in indexFields && MetaGroupOf(px, f) == Pdf)
            && (f in r[9] <==> f in indexFields && MetaGroupOf(px, f) == Office)
            && (f in r[10] <==> f in indexFields && MetaGroupOf(px, f) == Html)
            && (f in r[13] <==> f in indexFields && MetaGroupOf(px, f) == Ner)
            && (f in r[14] <==> f in indexFields && MetaGroupOf(px, f) == P2p)
            && (f in r[15] <==> f in indexFields && MetaGroupOf(px, f) == Ufed)
  {
    var r := CustomGroups(defaults, px, extraAttrs, indexFields);
    assert r[3] == InGroup(px, indexFields, Common) && r[4] == InGroup(px, indexFields, Communication);
    assert r[5] == InGroup(px, indexFields, Audio) && r[6] == InGroup(px, indexFields, Image);
    assert r[7] == InGroup(px, indexFields, Video) && r[8] == InGroup(px, indexFields, Pdf);
    assert r[9] == InGroup(px, indexFields, Office) && r[10] == InGroup(px, indexFields, Html);
    assert r[13] == InGroup(px, indexFields, Ner) && r[14] == InGroup(px, indexFields, P2p);
    assert r[15] == InGroup(px, indexFields, Ufed);
    InGroupMember(px, indexFields, Common, f);
    InGroupMember(px, indexFields, Communication, f);
    InGroupMember(px, indexFields, Audio, f);
    InGroupMember(px, indexFields, Image, f);
    InGroupMember(px, indexFields, Video, f);
    InGroupMember(px, indexFields, Pdf, f);
    InGroupMember(px, indexFields, Office, f);
    InGroupMember(px, indexFields, Html, f);
    InGroupMember(px, indexFields, Ner, f);
    InGroupMember(px, indexFields, P2p, f);
    InGroupMember(px, indexFields, Ufed, f);
  }

  /** The groups before sorting: the custom groups, "Other" and "All". */
  function Groups(defaults: seq<string>, px: Prefixes, extraAttrs: seq<string>, indexFields: seq<string>): seq<seq<string>>
  {
    var custom := CustomGroups(defaults, px, extraAttrs, indexFields);
    custom + [Others(indexFields, custom), indexFields]
  }

  /** Every group sorted by the collator. */
  function SortAll(groups: seq<seq<string>>, leq: (string, string) -> bool): (r: seq<seq<string>>)
    ensures |r| == |groups|
  {
    if groups == [] then []
    else SortAll(groups[..|groups| - 1], leq) + [Sort(groups[|groups| - 1], leq)]
  }

  /** Group k of the result is group k sorted, hence a permutation of it. */
  lemma {:induction false} SortAllAt(groups: seq<seq<string>>, leq: (string, string) -> bool, k: int)
    requires 0 <= k < |groups|
    ensures SortAll(groups, leq)[k] == Sort(groups[k], leq)
  {
    var n := |groups| - 1;
    var init := groups[..n];
    var prefix := SortAll(init, leq);
    assert SortAll(groups, leq) == prefix + [Sort(groups[n], leq)];
    if k < n {
      SortAllAt(init, leq, k);
      assert init[k] == groups[k];
      assert (prefix + [Sort(groups[n], leq)])[k] == prefix[k];
    }
  }

  lemma {:induction false} SortAllSorted(groups: seq<seq<string>>, leq: (string, string) -> bool)
    requires TotalPreorder(leq)
    ensures forall k | 0 <= k < |groups| :: SortedBy(SortAll(groups, leq)[k], leq)
  {
    if groups != [] {
      SortAllSorted(groups[..|groups| - 1], leq);
      SortSorted(groups[|groups| - 1], leq);
    }
  }

  /** The shape of fieldGroups: one group per title; "Other" holds exactly the index fields in
      no custom group and "All" every index field, each as a sorted permutation. */
  lemma FieldGroupsShape(defaults: seq<string>, px: Prefixes, extraAttrs: seq<string>, indexFields: seq<string>,
                         leq: (string, string) -> bool)
    requires TotalPreorder(leq)
    ensures var fg := SortAll(Groups(defaults, px, extraAttrs, indexFields), leq);
            var custom := CustomGroups(defaults, px, extraAttrs, indexFields);
            && |fg| == |GroupNames| == 18
            && (forall k | 0 <= k < |fg| :: SortedBy(fg[k], leq))
            && multiset(fg[17]) == multiset(indexFields)
            && (forall f :: f in fg[16] <==> f in indexFields && forall k | 0 <= k < 16 :: f !in custom[k])
            && multiset(fg[0]) == multiset(defaults)
  {
    var custom := CustomGroups(defaults, px, extraAttrs, indexFields);
    SortedGroupsShape(Groups(defaults, px, extraAttrs, indexFields), custom, defaults, indexFields, leq);
  }

  /** The same shape for any 18 groups laid out like Groups. */
  lemma SortedGroupsShape(groups: seq<seq<string>>, custom: seq<seq<string>>, defaults: seq<string>, indexFields: seq<string>,
                          leq: (string, string) -> bool)
    requires TotalPreorder(leq)
    requires |custom| == 16 && groups == custom + [Others(indexFields, custom), indexFields] && custom[0] == defaults
    ensures var fg := SortAll(groups, leq);
            && |fg| == 18
            && (forall k | 0 <= k < |fg| :: SortedBy(fg[k], leq))
            && multiset(fg[17]) == multiset(indexFields)
            && (forall f :: f in fg[16] <==> f in indexFields && forall k | 0 <= k < 16 :: f !in custom[k])
            && multiset(fg[0]) == multiset(defaults)
  {
    SortAllSorted(groups, leq);
    var fg := SortAll(groups, leq);
    assert groups[16] == Others(indexFields, custom) && groups[17] == indexFields && groups[0] == defaults;
    SortAllAt(groups, leq, 0);
    SortAllAt(groups, leq, 16);
    SortAllAt(groups, leq, 17);
    forall f ensures f in fg[16] <==> f in indexFields && forall k | 0 <= k < 16 :: f !in custom[k] {
      assert f in fg[16] <==> f in multiset(groups[16]);
      OthersMember(indexFields, custom, f);
    }
  }
}
