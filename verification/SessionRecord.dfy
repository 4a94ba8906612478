// The session record and its document: writing a loaded record and loading it
// again changes no field.
module SessionRecord {
  import opened Optional
  import opened SessionFile
  import SessionMerge
  import PartialSyncs

  predicate IsInt(k: Key) {
    KindOf(k) == IntTextField || KindOf(k) == IntNumberField
  }

  lemma ParsedParts(root: Object, s: Session)
    requires Parse(root) == Some(s)
    ensures ClientIdentity in root && s.identity == root[ClientIdentity] && s.needsReauth == (Get(root, NeedsReauth) == Some(Flag(true)))
    ensures forall k :: k in s.texts <==> k in root && KindOf(k) == TextField && root[k].Text?
    ensures forall k | k in s.texts :: s.texts[k] == root[k].s
    ensures forall k :: k in s.ints <==> k in FIELDS && IsInt(k)
    ensures forall k | k in s.ints :: s.ints[k] == Coerce(Get(root, k))
    ensures forall k :: k in s.nodes <==> k in root && KindOf(k) == NodeField
    ensures forall k | k in s.nodes :: s.nodes[k] == root[k]
  {
    hide Coerce, FIELDS;
  }

  lemma Parses(root: Object)
    ensures Parse(root).Some? <==>
      ClientIdentity in root && root[ClientIdentity].Tree? && AccessToken in root && root[AccessToken].Text?
  {
  }

  // A field written as the record has it reads back as the record has it.
  lemma FieldReadsBack(s: Session, k: Key)
    requires k in s.ints ==> INT64_MIN <= s.ints[k] <= INT64_MAX
    ensures KindOf(k) == TextField ==>
      Rendered(s, k) == if k in s.texts then Some(Text(s.texts[k])) else None
    ensures IsInt(k) && k in s.ints ==> Coerce(Rendered(s, k)) == s.ints[k]
    ensures KindOf(k) == NodeField ==> Rendered(s, k) == if k in s.nodes then Some(s.nodes[k]) else None
  {
    if k in s.ints {
      PartialSyncs.TimeRoundTrip(s.ints[k]);
    }
    hide Decimal, LeadingInteger;
  }

  lemma RecordRoundTrip(document: Object, s: Session)
    requires Parse(document) == Some(s)
    ensures Parse(ToJson(s)) == Some(s.(snapshot := Some(ToJson(s))))
  {
    var root := ToJson(s);
    ParsedParts(document, s);
    Parses(document);
    WrittenParts(s);
    Parses(root);
    var t := Parse(root).value;
    ParsedParts(root, t);
    SessionMerge.SnapshotOfParsed(root);
    hide Parse, ToJson, Rendered, Coerce, KindOf, FIELDS, IsInt, Get;
    SameFields(root, s, t);
  }

  lemma WrittenParts(s: Session)
    ensures Get(ToJson(s), ClientIdentity) == Some(s.identity)
    ensures AccessToken in s.texts ==> Get(ToJson(s), AccessToken) == Some(Text(s.texts[AccessToken]))
    ensures Get(ToJson(s), NeedsReauth) == if s.needsReauth then Some(Flag(true)) else None
  {
    SessionMerge.RenderedIsWritten(s, ClientIdentity);
    SessionMerge.RenderedIsWritten(s, AccessToken);
    SessionMerge.RenderedIsWritten(s, NeedsReauth);
    hide ToJson;
  }

  lemma SameFields(root: Object, s: Session, t: Session)
    requires root == ToJson(s)
    requires forall k :: k in s.texts ==> KindOf(k) == TextField
    requires forall k :: k in t.texts <==> k in root && KindOf(k) == TextField && root[k].Text?
    requires forall k | k in t.texts :: t.texts[k] == root[k].s
    requires forall k :: k in s.ints <==> k in t.ints
    requires forall k | k in s.ints :: IsInt(k) && INT64_MIN <= s.ints[k] <= INT64_MAX
    requires forall k | k in t.ints :: t.ints[k] == Coerce(Get(root, k))
    requires forall k :: k in s.nodes ==> KindOf(k) == NodeField
    requires forall k :: k in t.nodes <==> k in root && KindOf(k) == NodeField
    requires forall k | k in t.nodes :: t.nodes[k] == root[k]
    ensures t.texts == s.texts && t.ints == s.ints && t.nodes == s.nodes
  {
    hide ToJson, Rendered, Coerce, KindOf, IsInt;
    forall k ensures (k in t.texts <==> k in s.texts) && (k in s.texts ==> t.texts[k] == s.texts[k]) {
      FieldReadsBack(s, k);
      SessionMerge.RenderedIsWritten(s, k);
    }
    forall k ensures k in s.ints ==> t.ints[k] == s.ints[k] {
      FieldReadsBack(s, k);
      SessionMerge.RenderedIsWritten(s, k);
    }
    forall k ensures (k in t.nodes <==> k in s.nodes) && (k in s.nodes ==> t.nodes[k] == s.nodes[k]) {
      FieldReadsBack(s, k);
      SessionMerge.RenderedIsWritten(s, k);
    }
  }
}
