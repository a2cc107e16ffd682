/** What `readEDF` does with the annotation list the decoder returns: the filter that
    keeps the user-meaningful triggers, and the detection of the recording format from
    three metadata annotations. */
module Annotations {
  import opened Wrappers
  import opened Text
  import opened Selection

  /** One decoded annotation: its onset in seconds from the start of the recording and
      its description text. */
  datatype Annotation = Annotation(onset: real, description: string)

  /** Description markers of bookkeeping events that the filter drops. */
  const FileStartedMarker := "File started"
  const ChangeModeMarker := "Change mode"

  /** Prefixes of the three metadata annotations of the newer recording format. */
  const MontagePrefix := "montageSku: "
  const DauPrefix := "DAU No.: "
  const AppVersionPrefix := "App version: "

  /** A user-meaningful trigger: neither bookkeeping marker occurs in the description
      and the onset is strictly positive. */
  predicate IsTrigger(a: Annotation) {
    !Contains(a.description, FileStartedMarker) &&
    !Contains(a.description, ChangeModeMarker) &&
    a.onset > 0.0
  }

  /** The annotations the loader stores: the triggers, in their original order. */
  function FilterAnnotations(anns: seq<Annotation>): seq<Annotation> {
    Filter(anns, IsTrigger)
  }

  /** The stored annotations are the order-preserving subsequence of the decoded ones
      at exactly the trigger positions: every stored annotation is a decoded trigger,
      every decoded trigger is stored, and nothing is added. */
  lemma FilterAnnotationsKeepsTriggers(anns: seq<Annotation>)
    ensures FilterAnnotations(anns) == Select(anns, IndicesWhere(anns, IsTrigger))
    ensures |FilterAnnotations(anns)| <= |anns|
    ensures forall a :: a in FilterAnnotations(anns) ==> a in anns && IsTrigger(a)
    ensures forall a :: a in anns && IsTrigger(a) ==> a in FilterAnnotations(anns)
  {
    FilterExact(anns, IsTrigger);
    FilterIsSelection(anns, IsTrigger);
  }

  /** The description column of the annotation list. */
  function Descriptions(anns: seq<Annotation>): seq<string> {
    seq(|anns|, i requires 0 <= i < |anns| => anns[i].description)
  }

  /** Some description contains `key`. */
  predicate Present(descs: seq<string>, key: string) {
    exists i :: 0 <= i < |descs| && Contains(descs[i], key)
  }

  /** The metadata lookup `[d for d in descs if key in d][0][len(key):]`; None where
      Python raises IndexError because no description contains `key`. */
  function Lookup(descs: seq<string>, key: string): Option<string> {
    var hits := Filter(descs, (d: string) => Contains(d, key));
    if |hits| == 0 then None else Some(DropFront(hits[0], |key|))
  }

  /** The lookup fails exactly when no description contains `key`; otherwise its value
      is the first description that contains `key`, wherever in it `key` occurs, with
      its first `|key|` characters dropped. */
  lemma LookupFindsFirst(descs: seq<string>, key: string)
    ensures Lookup(descs, key).None? <==> !Present(descs, key)
    ensures Lookup(descs, key).Some? ==>
              exists i :: 0 <= i < |descs| && Contains(descs[i], key) &&
                          (forall j :: 0 <= j < i ==> !Contains(descs[j], key)) &&
                          |key| <= |descs[i]| && Lookup(descs, key).value == descs[i][|key|..]
  {
    var holds := (d: string) => Contains(d, key);
    var hits := Filter(descs, holds);
    FilterHead(descs, holds);
    if |hits| > 0 {
      var i :| 0 <= i < |descs| && holds(descs[i]) && hits[0] == descs[i] &&
               forall j :: 0 <= j < i ==> !holds(descs[j]);
      ContainedIsNoLonger(descs[i], key);
    }
  }

  /** When the first description holding `key` starts with it, the value is exactly
      the text after the prefix. */
  lemma LookupAfterPrefix(descs: seq<string>, key: string, i: nat, value: string)
    requires i < |descs| && descs[i] == key + value
    requires forall j :: 0 <= j < i ==> !Contains(descs[j], key)
    ensures Lookup(descs, key) == Some(value)
  {
    assert IsPrefix(key, descs[i]);
    PrefixIsContained(descs[i], key);
    LookupFindsFirst(descs, key);
    var r := Lookup(descs, key);
    var i' :| 0 <= i' < |descs| && Contains(descs[i'], key) &&
              (forall j :: 0 <= j < i' ==> !Contains(descs[j], key)) &&
              |key| <= |descs[i']| && r.value == descs[i'][|key|..];
    assert i' == i;
    assert (key + value)[|key|..] == value;
  }

  /** The value is cut by length, not at the prefix: a key in the middle of a
      description leaves part of the key in the value. */
  lemma LookupCutsByLength()
    ensures Lookup(["id montageSku: X"], MontagePrefix) == Some("u: X")
  {
    var d := "id montageSku: X";
    assert IsPrefix(MontagePrefix, d[3..]);
    OccurrenceIsContained(d, MontagePrefix, 3);
    LookupFindsFirst([d], MontagePrefix);
    assert d[12..] == "u: X";
  }

  datatype EdfFormat = NewFormat | OldFormat

  /** The three optional metadata fields of a recording. */
  datatype Metadata = Metadata(montage: Option<string>, dau: Option<string>, appVer: Option<string>)

  const NoMetadata := Metadata(None, None, None)

  /** The outcome of format detection: the metadata fields afterwards, and the format. */
  datatype Detection = Detection(meta: Metadata, format: EdfFormat)

  /** Format detection over the descriptions, starting from the metadata `prev` held
      before: the montage, DAU and app-version lookups run in this order, each field is
      set as soon as its lookup succeeds, and the first failing lookup ends detection
      with the old format, leaving the fields after it as they were. */
  function Detect(descs: seq<string>, prev: Metadata): Detection
  {
    match Lookup(descs, MontagePrefix)
    case None => Detection(prev, OldFormat)
    case Some(montage) =>
      match Lookup(descs, DauPrefix)
      case None => Detection(prev.(montage := Some(montage)), OldFormat)
      case Some(dau) =>
        match Lookup(descs, AppVersionPrefix)
        case None => Detection(prev.(montage := Some(montage), dau := Some(dau)), OldFormat)
        case Some(appVer) => Detection(Metadata(Some(montage), Some(dau), Some(appVer)), NewFormat)
  }

  /** Detection decides the new format exactly when all three prefixes occur in some
      description; each field it sets is its lookup's value; the fields after the first
      missing prefix keep their previous values. */
  lemma DetectSpec(descs: seq<string>, prev: Metadata)
    ensures Detect(descs, prev).format == NewFormat <==>
              Present(descs, MontagePrefix) && Present(descs, DauPrefix) && Present(descs, AppVersionPrefix)
    ensures Detect(descs, prev).meta.montage ==
              if Present(descs, MontagePrefix) then Lookup(descs, MontagePrefix) else prev.montage
    ensures Detect(descs, prev).meta.dau ==
              if Present(descs, MontagePrefix) && Present(descs, DauPrefix)
              then Lookup(descs, DauPrefix) else prev.dau
    ensures Detect(descs, prev).meta.appVer == if Detect(descs, prev).format == NewFormat then Lookup(descs, AppVersionPrefix) else prev.appVer
    ensures Detect(descs, prev).format == NewFormat ==> Detect(descs, prev).meta.montage.Some? && Detect(descs, prev).meta.dau.Some? && Detect(descs, prev).meta.appVer.Some?
  {
    LookupFindsFirst(descs, MontagePrefix);
    LookupFindsFirst(descs, DauPrefix);
    LookupFindsFirst(descs, AppVersionPrefix);
  }

  /** Starting from unset fields, a recording without any metadata annotation keeps all
      three unset and is of the old format. */
  lemma NoMetadataStaysUnset(descs: seq<string>)
    requires !Present(descs, MontagePrefix) && !Present(descs, DauPrefix) && !Present(descs, AppVersionPrefix)
    ensures Detect(descs, NoMetadata) == Detection(NoMetadata, OldFormat)
  {
    DetectSpec(descs, NoMetadata);
  }

  /** A montage annotation alone is a partial hit: the format is old, yet the montage
      is set. */
  lemma PartialHitSetsMontage()
    ensures Detect(["montageSku: M1"], NoMetadata) == Detection(Metadata(Some("M1"), None, None), OldFormat)
  {
    var descs := ["montageSku: M1"];
    LookupAfterPrefix(descs, MontagePrefix, 0, "M1");
    FirstCharAbsent(descs[0], DauPrefix);
  }

  /** The filter drops both bookkeeping markers and every non-positive onset. */
  lemma FilterExample()
    ensures FilterAnnotations([Annotation(0.0, "File started"), Annotation(5.0, "Change mode"),
                               Annotation(10.0, "EventA"), Annotation(-1.0, "EventB")])
            == [Annotation(10.0, "EventA")]
  {
    var anns := [Annotation(0.0, "File started"), Annotation(5.0, "Change mode"),
                 Annotation(10.0, "EventA"), Annotation(-1.0, "EventB")];
    assert !IsTrigger(anns[1]) by {
      assert anns[1].description[0..] == ChangeModeMarker;
    }
    assert IsTrigger(anns[2]);
    assert Filter(anns[..1], IsTrigger) == [] by {
      assert anns[..1][..0] == [];
    }
    assert Filter(anns[..2], IsTrigger) == [] by {
      assert anns[..2][..1] == anns[..1];
    }
    assert Filter(anns[..3], IsTrigger) == [anns[2]] by {
      assert anns[..3][..2] == anns[..2];
    }
    assert anns[..3] == anns[..4][..3];
    assert Filter(anns, IsTrigger) == [anns[2]] by {
      assert anns[..3] == anns[..|anns| - 1];
    }
  }
}
