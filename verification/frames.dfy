/** Frame references of `types.py`: "world", or a kind, a colon and an identifier. */
module Frames {
  import opened Basics

  datatype ParsedFrame = ParsedFrame(kind: string, ident: Option<string>)

  datatype FrameError =
    | EmptyRef
    | WorldTakesNoIdent
    | UnknownKind(kind: string)
    | NeedsIdent(kind: string)
    | ColonInIdent

  const WORLD := "world"

  /** The kinds that take an identifier. */
  predicate NamedKind(kind: string) { kind == "arm_base" || kind == "camera" || kind == "ee" }

  predicate Known(kind: string) { kind == WORLD || NamedKind(kind) }

  /** `str.partition(":")`. */
  datatype Parts = Parts(before: string, found: bool, after: string)

  function Partition(s: string): Parts {
    if s == "" then Parts("", false, "")
    else if s[0] == ':' then Parts("", true, s[1..])
    else
      var rest := Partition(s[1..]);
      rest.(before := [s[0]] + rest.before)
  }

  function ParseFrame(ref: string): Result<ParsedFrame, FrameError> {
    if ref == "" then Err(EmptyRef)
    else if ref == WORLD then Ok(ParsedFrame(WORLD, None))
    else
      var p := Partition(ref);
      if p.before == WORLD then Err(WorldTakesNoIdent)
      else if !Known(p.before) then Err(UnknownKind(p.before))
      else if !p.found || p.after == "" then Err(NeedsIdent(p.before))
      else if ':' in p.after then Err(ColonInIdent)
      else Ok(ParsedFrame(p.before, Some(p.after)))
  }

  function FrameRef(kind: string, ident: Option<string>): Result<string, FrameError> {
    if kind == WORLD then
      if ident.Some? then Err(WorldTakesNoIdent) else Ok(WORLD)
    else if !Known(kind) then Err(UnknownKind(kind))
    else if ident == None || ident == Some("") then Err(NeedsIdent(kind))
    else
      var ref := kind + ":" + ident.value;
      match ParseFrame(ref)
      case Err(e) => Err(e)
      case Ok(_) => Ok(ref)
  }

  // ------------------------------------------------------------------ the language

  /** The pairs that name a frame. */
  predicate NamesFrame(kind: string, ident: Option<string>) {
    || (kind == "world" && ident == None)
    || ((kind == "arm_base" || kind == "camera" || kind == "ee")
        && ident.Some? && ident.value != "" && ':' !in ident.value)
  }

  /** How a pair that names a frame is written. */
  function Written(kind: string, ident: Option<string>): string {
    match ident
    case None => kind
    case Some(i) => kind + ":" + i
  }

  /** Partition cuts at the first colon, and only there. */
  lemma {:induction false} PartitionExact(s: string)
    ensures var p := Partition(s);
      && ':' !in p.before
      && (if p.found then s == p.before + ":" + p.after else s == p.before && p.after == "")
  {
    if s != "" {
      assert s == [s[0]] + s[1..];
      PartitionExact(s[1..]);
    }
  }

  lemma {:induction false} PartitionOfWritten(before: string, after: string)
    requires ':' !in before
    ensures Partition(before + ":" + after) == Parts(before, true, after)
  {
    var s := before + ":" + after;
    if before == "" {
      assert s[0] == ':' && s[1..] == after;
    } else {
      assert s[0] == before[0] && s[1..] == before[1..] + ":" + after;
      assert before == [before[0]] + before[1..];
      PartitionOfWritten(before[1..], after);
    }
  }

  lemma KindsHaveNoColon(kind: string)
    requires Known(kind)
    ensures ':' !in kind && kind != ""
  {
  }

  /** A colon makes a string something other than "world". */
  lemma WithColon(kind: string, ident: string)
    ensures kind + ":" + ident != WORLD && kind + ":" + ident != ""
  {
    assert (kind + ":" + ident)[|kind|] == ':';
    KindsHaveNoColon(WORLD);
  }

  lemma ParseWritten(kind: string, ident: string)
    requires NamedKind(kind)
    ensures var r := ParseFrame(kind + ":" + ident);
      if ident == "" then r == Err(NeedsIdent(kind))
      else if ':' in ident then r == Err(ColonInIdent)
      else r == Ok(ParsedFrame(kind, Some(ident)))
  {
    KindsHaveNoColon(kind);
    WithColon(kind, ident);
    PartitionOfWritten(kind, ident);
  }

  /** Parsing accepts exactly the writings of the pairs that name a frame, and gives the
      pair back. */
  lemma ParseExactly(ref: string, kind: string, ident: Option<string>)
    ensures ParseFrame(ref) == Ok(ParsedFrame(kind, ident)) <==>
      NamesFrame(kind, ident) && ref == Written(kind, ident)
  {
    PartitionExact(ref);
    if NamesFrame(kind, ident) && ident.Some? { ParseWritten(kind, ident.value); }
  }

  /** Building succeeds exactly on the pairs that name a frame. */
  lemma BuildExactly(kind: string, ident: Option<string>, ref: string)
    ensures FrameRef(kind, ident) == Ok(ref) <==> NamesFrame(kind, ident) && ref == Written(kind, ident)
  {
    if NamedKind(kind) && ident.Some? { ParseWritten(kind, ident.value); }
  }

  /** Each is the inverse of the other, on everything either accepts. */
  lemma MutualInverse(ref: string, kind: string, ident: Option<string>)
    ensures FrameRef(kind, ident) == Ok(ref) <==> ParseFrame(ref) == Ok(ParsedFrame(kind, ident))
  {
    ParseExactly(ref, kind, ident);
    BuildExactly(kind, ident, ref);
  }

  predicate IsKind(kind: string) { kind == "world" || kind == "arm_base" || kind == "camera" || kind == "ee" }

  lemma NoColonNoCut(s: string)
    requires ':' !in s
    ensures Partition(s) == Parts(s, false, "")
  {
    PartitionExact(s);
    HasColon(Partition(s).before, Partition(s).after);
  }

  lemma HasColon(before: string, after: string)
    ensures ':' in before + ":" + after
  {
    assert (before + ":" + after)[|before|] == ':';
  }

  /** Why a string without a colon is refused: it is empty, a kind that needs an identifier,
      or no kind. */
  lemma RefusedWithoutColon(ref: string, e: FrameError)
    requires ':' !in ref
    ensures ParseFrame(ref) == Err(e) <==>
      || (ref == "" && e == EmptyRef)
      || (ref != "" && !IsKind(ref) && e == UnknownKind(ref))
      || (ref != "world" && IsKind(ref) && e == NeedsIdent(ref))
  {
    NoColonNoCut(ref);
  }

  /** And with one, cut at the first: "world" with an identifier, no kind, an empty
      identifier, or one with another colon. */
  lemma RefusedWithColon(before: string, after: string, e: FrameError)
    requires ':' !in before
    ensures ParseFrame(before + ":" + after) == Err(e) <==>
      || (before == "world" && e == WorldTakesNoIdent)
      || (!IsKind(before) && e == UnknownKind(before))
      || (before != "world" && IsKind(before) && after == "" && e == NeedsIdent(before))
      || (before != "world" && IsKind(before) && ':' in after && e == ColonInIdent)
  {
    WithColon(before, after);
    PartitionOfWritten(before, after);
  }

  /** Building refuses for the same reasons. */
  lemma BuildRefuses(kind: string, ident: Option<string>, e: FrameError)
    ensures FrameRef(kind, ident) == Err(e) <==>
      || (kind == "world" && ident.Some? && e == WorldTakesNoIdent)
      || (!IsKind(kind) && e == UnknownKind(kind))
      || (kind != "world" && IsKind(kind) && (ident == None || ident == Some("")) && e == NeedsIdent(kind))
      || (kind != "world" && IsKind(kind) && ident.Some? && ':' in ident.value && e == ColonInIdent)
  {
    if NamedKind(kind) && ident.Some? { ParseWritten(kind, ident.value); }
  }
}
