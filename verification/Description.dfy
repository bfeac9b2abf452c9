/** What a write changes: `describe` in terms of the independent equality of objects. */
module Description {
  import opened Json
  import opened Normalize
  import opened Records

  datatype Label = Creates | Deletes | Releases | Updates | OrderOnly

  function LabelText(tag: Label): string {
    match tag
    case Creates => "create"
    case Deletes => "delete"
    case Releases => "delete, last finalizer removed"
    case Updates => "update"
    case OrderOnly => "update, order only"
  }

  /** `symbol`, which looks at the start of the text of the label. */
  function Symbol(tag: Label): char {
    var text := LabelText(tag);
    if "create" <= text then '+' else if "delete" <= text then '-' else '~'
  }

  datatype Change = Change(tag: Label, lines: seq<string>)

  predicate OneLine(s: string) { '\n' !in s }

  /** Text cut at the newlines: at least one line, and no newline in a line. */
  type Lines = ls: seq<string> | ls != [] && forall i | 0 <= i < |ls| :: OneLine(ls[i]) witness [""]

  /** The YAML printer and the unified diff, which are libraries: any functions of their arguments. */
  datatype Printer = Printer(yaml: Object -> Lines, diff: (Object, Object) -> Lines)

  function Metadata(obj: Object): Object {
    if "metadata" in obj && obj["metadata"].Obj? then obj["metadata"].fields else map[]
  }

  predicate Deleting(obj: Object) {
    "deletionTimestamp" in Metadata(obj) && Metadata(obj)["deletionTimestamp"] != Null
  }

  function Finalizers(obj: Object): seq<Json> {
    var meta := Metadata(obj);
    if "finalizers" in meta && meta["finalizers"].Arr? then meta["finalizers"].elems else []
  }

  /** A created object is shown without an empty status. */
  function WithoutEmptyStatus(obj: Object): Object {
    if "status" in obj && obj["status"] == Obj(map[]) then obj - {"status"} else obj
  }

  function Prefixed(lines: seq<string>): seq<string> {
    seq(|lines|, i requires 0 <= i < |lines| => "+ " + lines[i])
  }

  /** `describe`: the change that a write makes, or `None` when it changes nothing. */
  function Describe(p: Printer, w: Write): Option<Change> {
    if w.deleted && !Deleting(w.live) then Some(Change(Deletes, []))
    else if w.created then
      Some(Change(Creates, Prefixed(p.yaml(NormalizeObject(WithoutEmptyStatus(w.desired), true)))))
    else if NormalizeObject(w.live, false) == NormalizeObject(w.desired, false) then None
    else
      var live, desired := NormalizeObject(w.live, true), NormalizeObject(w.desired, true);
      if live == desired then Some(Change(OrderOnly, []))
      else
        var releases := Deleting(w.live) && Finalizers(w.live) != [] && Finalizers(w.desired) == [];
        var tag := if releases then Releases else Updates;
        Some(Change(tag, p.diff(live, desired)))
  }

  /** Only these writes are compared: the others are creates and deletes, which always show. */
  predicate Compared(w: Write) {
    !w.created && !(w.deleted && !Deleting(w.live))
  }

  /** Nothing changes exactly when the objects are equal but for entries that are empty lists. */
  lemma NoChange(p: Printer, w: Write)
    ensures Describe(p, w) == None <==> Compared(w) && Same(false, Obj(w.live), Obj(w.desired))
  {
    CanonicalForm(w.live, w.desired, false);
  }

  /** A change is "order only" exactly when it moves list elements and does nothing else. */
  lemma OnlyOrder(p: Printer, w: Write)
    ensures (exists c :: Describe(p, w) == Some(c) && c.tag == OrderOnly)
      <==> Compared(w) && Same(true, Obj(w.live), Obj(w.desired)) && !Same(false, Obj(w.live), Obj(w.desired))
  {
    CanonicalForm(w.live, w.desired, false);
    CanonicalForm(w.live, w.desired, true);
    if Describe(p, w).Some? {
      assert Describe(p, w) == Some(Describe(p, w).value);
    }
  }

  /** Equal but for empty lists is equal up to order as well, so "order only" is never "no change". */
  lemma SortedFormOfUnsorted(a: Object, b: Object)
    requires Same(false, Obj(a), Obj(b))
    ensures Same(true, Obj(a), Obj(b))
  {
    CanonicalForm(a, b, false);
    CanonicalForm(a, b, true);
    NormalizeTwice(a, false, true);
    NormalizeTwice(b, false, true);
  }

  /** A delete changes the description exactly when it is the first delete of an object that
      is not being deleted already. */
  lemma DeleteOfDeleting(p: Printer, w: Write)
    ensures Describe(p, w.(deleted := true)) == Describe(p, w) <==> w.deleted || Deleting(w.live)
  {
  }

  // ---- The labels, by the flags of a write and the fields of its objects ----

  /** A field inside a field; what is not there is null. */
  function Inside(obj: Object, outer: string, inner: string): Json {
    if outer in obj && obj[outer].Obj? && inner in obj[outer].fields then obj[outer].fields[inner] else Null
  }

  /** The object has a deletion timestamp. */
  predicate Dying(obj: Object) {
    Inside(obj, "metadata", "deletionTimestamp") != Null
  }

  /** The object has a finalizer. */
  predicate Held(obj: Object) {
    Inside(obj, "metadata", "finalizers").Arr? && Inside(obj, "metadata", "finalizers").elems != []
  }

  /** The write deletes an object that is not being deleted yet. */
  predicate FirstDelete(w: Write) {
    w.deleted && !Dying(w.live)
  }

  /** The write takes the last finalizer from an object that is being deleted. */
  predicate LetsGo(w: Write) {
    Dying(w.live) && Held(w.live) && !Held(w.desired)
  }

  /** The write changes more than the order of lists. */
  ghost predicate Alters(w: Write) {
    FirstDelete(w) || w.created || !Same(true, Obj(w.live), Obj(w.desired))
  }

  /** The write changes something. */
  ghost predicate Touches(w: Write) {
    FirstDelete(w) || w.created || !Same(false, Obj(w.live), Obj(w.desired))
  }

  /** After the write the object is gone, or will be. */
  ghost predicate Removes(w: Write) {
    FirstDelete(w) || (!w.created && LetsGo(w) && Alters(w))
  }

  predicate Labeled(p: Printer, w: Write, tag: Label) {
    Describe(p, w).Some? && Describe(p, w).value.tag == tag
  }

  /** Which label a write gets, and whether it gets one. */
  lemma Labels(p: Printer, w: Write)
    ensures Describe(p, w).Some? <==> Touches(w)
    ensures Labeled(p, w, Deletes) <==> FirstDelete(w)
    ensures Labeled(p, w, Creates) <==> w.created && !FirstDelete(w)
    ensures Labeled(p, w, Releases) <==> Removes(w) && !FirstDelete(w)
    ensures Labeled(p, w, Updates) <==> Alters(w) && !w.created && !Removes(w)
    ensures Labeled(p, w, OrderOnly) <==> Touches(w) && !Alters(w)
  {
    CanonicalForm(w.live, w.desired, false);
    CanonicalForm(w.live, w.desired, true);
    assert Deleting(w.live) <==> Dying(w.live);
    assert Finalizers(w.live) != [] <==> Held(w.live);
    assert Finalizers(w.desired) != [] <==> Held(w.desired);
    hide Same, NormalizeObject, Inside, Metadata, Deleting, Finalizers;
    if Same(false, Obj(w.live), Obj(w.desired)) {
      SortedFormOfUnsorted(w.live, w.desired);
    }
  }

  /** Which lines a change shows: those of the object that it creates, without an empty status, or
      the difference from the live object to the desired one, both with sorted lists. */
  lemma LinesShown(p: Printer, w: Write)
    ensures Labeled(p, w, Creates) ==>
      var shown :=
        if "status" in w.desired && w.desired["status"] == Obj(map[]) then w.desired - {"status"} else w.desired;
      var lines, yaml := Describe(p, w).value.lines, p.yaml(NormalizeObject(shown, true));
      |lines| == |yaml| && forall i | 0 <= i < |yaml| :: lines[i] == "+ " + yaml[i]
    ensures Labeled(p, w, Updates) || Labeled(p, w, Releases) ==>
      Describe(p, w).value.lines == p.diff(NormalizeObject(w.live, true), NormalizeObject(w.desired, true))
    ensures Labeled(p, w, Deletes) || Labeled(p, w, OrderOnly) ==> Describe(p, w).value.lines == []
  {
  }
}
