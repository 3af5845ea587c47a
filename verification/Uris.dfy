/**
  URI resolution: nested /vsisubfile/ windows and a #bytes fragment become one window on one
  object. The table of schemes behind a terminal URI is a parameter (`Locate`).
*/
module Uris {
  import opened Numbers

  const TO_END: u64 := MAX64
  const VSI_SUBFILE := "/vsisubfile/"
  const BYTES_FRAGMENT := "#bytes="
  const MAX_SUBFILE_DEPTH: nat := 16

  datatype Backend = File | Http | S3 | Gcs | Azure | HuggingFace | Source

  datatype Resolved = Resolved(backend: Backend, canonicalUri: string, windowOffset: u64, windowLength: u64)

  datatype ResolveError = MalformedUri | UnsupportedFilesystem

  datatype Resolution<+T> = Ok(value: T) | Error(error: ResolveError)
  {
    predicate IsFailure() { Error? }
    function PropagateFailure<U>(): Resolution<U> requires Error? { Resolution.Error(error) }
    function Extract(): T requires Ok? { value }
  }

  /** The backend and canonical name of a terminal URI, if its scheme and shape are accepted. */
  type Locate = string -> Resolution<(Backend, string)>

  // ------------------------------------------------------------------ text

  predicate StartsWith(text: string, prefix: string) { prefix <= text }

  function Find(text: string, c: char): (r: Option<nat>)
    ensures r.Some? ==> r.value < |text| && text[r.value] == c && c !in text[..r.value]
    ensures r.None? ==> c !in text
  {
    if text == [] then None
    else if text[0] == c then Some(0)
    else match Find(text[1..], c)
      case None => None
      case Some(i) => assert text[..i + 1] == [text[0]] + text[1..][..i]; Some(i + 1)
  }

  function FindLast(text: string, c: char): (r: Option<nat>)
    ensures r.Some? ==> r.value < |text| && text[r.value] == c && c !in text[r.value + 1..]
    ensures r.None? ==> c !in text
  {
    if text == [] then None
    else if text[|text| - 1] == c then Some(|text| - 1)
    else match FindLast(text[..|text| - 1], c)
      case None => None
      case Some(i) =>
        assert text[i + 1..] == text[..|text| - 1][i + 1..] + [text[|text| - 1]];
        Some(i)
  }

  predicate IsDigit(c: char) { '0' <= c <= '9' }

  function DecimalValue(digits: string): nat
    requires forall c | c in digits :: IsDigit(c)
  {
    if digits == [] then 0 else
    var last := digits[|digits| - 1];
    assert IsDigit(last);
    DecimalValue(digits[..|digits| - 1]) * 10 + (last as int - '0' as int)
  }

  function ParseU64(text: string): Resolution<u64>
  {
    if text == [] || !(forall c | c in text :: IsDigit(c)) || DecimalValue(text) > MAX64 then Error(MalformedUri)
    else Ok(DecimalValue(text))
  }

  // ------------------------------------------------------------------ windows

  /** Clips a nested window to its parent and expresses it as an offset into the object. */
  function ApplyWindow(parent: Resolved, offset: u64, length: u64): Resolution<Resolved>
  {
    if parent.windowOffset > MAX64 - offset then Error(MalformedUri)
    else if parent.windowLength != TO_END && offset > parent.windowLength then Error(MalformedUri)
    else
      var composed := if parent.windowLength != TO_END then Min(length, parent.windowLength - offset) else length;
      var moved: u64 := parent.windowOffset + offset;
      Ok(parent.(windowOffset := moved, windowLength := composed))
  }

  /** Splits a trailing `#bytes=FIRST-LAST` or `#bytes=FIRST-` off a URI. */
  function TakeBytesFragment(uri: string): Resolution<(string, u64, u64)>
  {
    match FindLast(uri, '#')
    case None => Ok((uri, 0, TO_END))
    case Some(hash) =>
      if !StartsWith(uri[hash..], BYTES_FRAGMENT) then Ok((uri, 0, TO_END)) else
      var fragment := uri[hash + |BYTES_FRAGMENT|..];
      match Find(fragment, '-')
      case None => Error(MalformedUri)
      case Some(dash) =>
        var first :- ParseU64(fragment[..dash]);
        var lastText := fragment[dash + 1..];
        if lastText == [] then Ok((uri[..hash], first, TO_END)) else
        var last :- ParseU64(lastText);
        if last < first || last - first == MAX64 then Error(MalformedUri)
        else Ok((uri[..hash], first, last - first + 1))
  }

  function Terminal(uri: string, locate: Locate): Resolution<Resolved>
  {
    var (base, offset, length) :- TakeBytesFragment(uri);
    var (backend, name) :- locate(base);
    var whole := Resolved(backend, name, 0, TO_END);
    if offset != 0 || length != TO_END then ApplyWindow(whole, offset, length) else Ok(whole)
  }

  /** `OFFSET[_LENGTH],<inner>` after /vsisubfile/. A negative length means "to the end". */
  function ParseSubfile(rest: string): (r: Resolution<(u64, u64, string)>)
    ensures r.Ok? ==> |r.value.2| < |rest|
  {
    match Find(rest, ',')
    case None => Error(MalformedUri)
    case Some(comma) =>
      var spec, inner := rest[..comma], rest[comma + 1..];
      if inner == [] then Error(MalformedUri) else
      match Find(spec, '_')
      case None =>
        var offset :- ParseU64(spec);
        Ok((offset, TO_END, inner))
      case Some(underscore) =>
        var offset :- ParseU64(spec[..underscore]);
        var lengthText := spec[underscore + 1..];
        if lengthText != [] && lengthText[0] == '-' then
          var _ :- ParseU64(lengthText[1..]);
          Ok((offset, TO_END, inner))
        else
          var length :- ParseU64(lengthText);
          Ok((offset, length, inner))
  }

  const ALIASES: seq<(string, string)> := [
    ("/vsicurl/", ""), ("/vsis3/", "s3://"), ("/vsigs/", "gs://"), ("/vsiaz/", "az://"),
    ("/vsiadls/", "abfs://"), ("/vsihf/", "hf://"), ("/vsisource/", "source://")]

  /** The first alias that `uri` starts with, from the `from`-th on. */
  function FindAlias(uri: string, from: nat): Option<nat>
    requires from <= |ALIASES|
    decreases |ALIASES| - from
  {
    if from == |ALIASES| then None
    else if StartsWith(uri, ALIASES[from].0) then Some(from)
    else FindAlias(uri, from + 1)
  }

  /** The terminal URI that a path without windows stands for. */
  function TerminalUri(uri: string): Resolution<string>
  {
    match FindAlias(uri, 0)
    case Some(i) =>
      if i >= |ALIASES| || |uri| <= |ALIASES[i].0| then Error(MalformedUri) else
      var rest := uri[|ALIASES[i].0|..];
      if i == 0 && !StartsWith(rest, "http://") && !StartsWith(rest, "https://") then Error(MalformedUri)
      else Ok(ALIASES[i].1 + rest)
    case None =>
      if StartsWith(uri, "/vsi") then Error(UnsupportedFilesystem) else Ok(uri)
  }

  function ResolveAt(uri: string, depth: nat, locate: Locate): Resolution<Resolved>
    decreases |uri|
  {
    if uri == [] then Error(MalformedUri)
    else if StartsWith(uri, VSI_SUBFILE) then
      if depth == MAX_SUBFILE_DEPTH then Error(MalformedUri) else
      var (offset, length, inner) :- ParseSubfile(uri[|VSI_SUBFILE|..]);
      var child :- ResolveAt(inner, depth + 1, locate);
      ApplyWindow(child, offset, length)
    else
      var terminal :- TerminalUri(uri);
      Terminal(terminal, locate)
  }

  function Resolve(uri: string, locate: Locate): Resolution<Resolved>
  {
    ResolveAt(uri, 0, locate)
  }

  // ------------------------------------------------------------------ meaning

  /** The bytes at [offset, offset + length) that exist. */
  function Slice<T>(bytes: seq<T>, offset: nat, length: nat): (r: seq<T>)
  {
    Take(Drop(bytes, offset), length)
  }

  /** What a URI denotes when its object holds `bytes`: the object is read first, then every
      window in turn, from the inside out. */
  function Denote<T>(uri: string, bytes: seq<T>): seq<T>
    decreases |uri|
  {
    if StartsWith(uri, VSI_SUBFILE) then
      match ParseSubfile(uri[|VSI_SUBFILE|..])
      case Error(_) => []
      case Ok((offset, length, inner)) =>
        var visible := Denote(inner, bytes);
        if length == TO_END then Drop(visible, offset) else Take(Drop(visible, offset), length)
    else
      match TerminalUri(uri)
      case Error(_) => []
      case Ok(terminal) =>
        match TakeBytesFragment(terminal)
        case Error(_) => []
        case Ok((_, offset, length)) =>
          if length == TO_END then Drop(bytes, offset) else Take(Drop(bytes, offset), length)
  }

  /** Slicing a slice is one slice: the algebra behind ApplyWindow. */
  lemma SliceOfSlice<T>(bytes: seq<T>, offset: nat, length: nat, innerOffset: nat, innerLength: nat)
    ensures Slice(Slice(bytes, offset, length), innerOffset, innerLength)
         == Slice(bytes, offset + innerOffset, Max(0, Min(innerLength, length - innerOffset)))
  {
    var left := Slice(Slice(bytes, offset, length), innerOffset, innerLength);
    var right := Slice(bytes, offset + innerOffset, Max(0, Min(innerLength, length - innerOffset)));
    assert |left| == |right|;
    assert forall i | 0 <= i < |left| :: left[i] == bytes[offset + innerOffset + i] == right[i];
  }

  /** A window without an end reaches as far as any that 64 bits can name. */
  lemma SliceToEnd<T>(bytes: seq<T>, from: nat, offset: nat, length: nat)
    requires |bytes| <= MAX64
    ensures Slice(bytes, from + offset, length) == Slice(bytes, from + offset, Max(0, Min(length, TO_END - offset)))
  {}

  /** One window on an object stands for a window on what its parent shows. */
  lemma ApplyWindowComposes<T>(parent: Resolved, offset: u64, length: u64, bytes: seq<T>)
    requires |bytes| <= MAX64 && ApplyWindow(parent, offset, length).Ok?
    ensures
      var window := ApplyWindow(parent, offset, length).value;
      Slice(bytes, window.windowOffset, window.windowLength)
        == Slice(Slice(bytes, parent.windowOffset, parent.windowLength), offset, length)
  {
    hide Slice;
    SliceOfSlice(bytes, parent.windowOffset, parent.windowLength, offset, length);
    SliceToEnd(bytes, parent.windowOffset, offset, length);
  }

  lemma {:induction false} ResolveAtPreservesMeaning<T>(uri: string, depth: nat, locate: Locate, bytes: seq<T>)
    requires |bytes| <= MAX64 && ResolveAt(uri, depth, locate).Ok?
    ensures
      var window := ResolveAt(uri, depth, locate).value;
      Slice(bytes, window.windowOffset, window.windowLength) == Denote(uri, bytes)
    decreases |uri|
  {
    if StartsWith(uri, VSI_SUBFILE) {
      var (offset, length, inner) := ParseSubfile(uri[|VSI_SUBFILE|..]).value;
      var child := ResolveAt(inner, depth + 1, locate).value;
      ResolveAtPreservesMeaning(inner, depth + 1, locate, bytes);
      ApplyWindowComposes(child, offset, length, bytes);
    } else {
      var terminal := TerminalUri(uri).value;
      var (base, offset, length) := TakeBytesFragment(terminal).value;
      var whole := Resolved(locate(base).value.0, locate(base).value.1, 0, TO_END);
      if offset != 0 || length != TO_END {
        ApplyWindowComposes(whole, offset, length, bytes);
      }
    }
  }

  /** The single window a nest of windows resolves to shows, for every object, exactly what
      reading the windows one after the other shows. */
  lemma ResolvePreservesMeaning<T>(uri: string, locate: Locate, bytes: seq<T>)
    requires |bytes| <= MAX64 && Resolve(uri, locate).Ok?
    ensures
      var window := Resolve(uri, locate).value;
      Slice(bytes, window.windowOffset, window.windowLength) == Denote(uri, bytes)
  {
    ResolveAtPreservesMeaning(uri, 0, locate, bytes);
  }
}
