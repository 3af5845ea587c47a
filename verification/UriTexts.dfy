/**
  What is written is what is read: the texts of windows, byte ranges and aliases, as a caller prints them
  (src/uri.cpp), and what module Uris makes of them.
*/
module UriTexts {
  import opened Numbers
  import opened Uris

  function Decimal(n: nat): (digits: string)
    ensures digits != [] && forall c | c in digits :: IsDigit(c)
  {
    var last := ['0' + (n % 10) as char];
    if n < 10 then last else Decimal(n / 10) + last
  }

  lemma {:induction false} DecimalIsRead(n: nat)
    ensures DecimalValue(Decimal(n)) == n
  {
    if n >= 10 {
      DecimalIsRead(n / 10);
      assert Decimal(n)[..|Decimal(n)| - 1] == Decimal(n / 10);
    } else {
      assert Decimal(n)[..0] == [];
    }
  }

  lemma NumberIsRead(n: u64)
    ensures ParseU64(Decimal(n)) == Ok(n)
  {
    DecimalIsRead(n);
  }

  // ------------------------------------------------------------------ the first and the last separator

  lemma {:induction false} FirstIsFound(text: string, c: char, n: nat)
    requires n < |text| && text[n] == c && c !in text[..n]
    ensures Find(text, c) == Some(n)
    decreases n
  {
    if n > 0 {
      assert text[..n][0] == text[0];
      assert text[1..][..n - 1] == text[..n][1..];
      FirstIsFound(text[1..], c, n - 1);
    }
  }

  lemma {:induction false} LastIsFound(text: string, c: char, n: nat)
    requires n < |text| && text[n] == c && c !in text[n + 1..]
    ensures FindLast(text, c) == Some(n)
    decreases |text|
  {
    if n < |text| - 1 {
      var rest := text[n + 1..];
      assert rest[|rest| - 1] == text[|text| - 1];
      assert text[..|text| - 1][n + 1..] == rest[..|rest| - 1];
      LastIsFound(text[..|text| - 1], c, n);
    }
  }

  lemma SplitAtFirst(front: string, c: char, rest: string)
    requires c !in front
    ensures
      var text := front + [c] + rest;
      Find(text, c) == Some(|front|) && text[..|front|] == front && text[|front| + 1..] == rest
  {
    var text := front + [c] + rest;
    assert text[..|front|] == front;
    FirstIsFound(text, c, |front|);
  }

  lemma SplitAtLast(front: string, c: char, rest: string)
    requires c !in rest
    ensures
      var text := front + [c] + rest;
      FindLast(text, c) == Some(|front|) && text[..|front|] == front && text[|front|..] == [c] + rest
  {
    var text := front + [c] + rest;
    assert text[|front| + 1..] == rest;
    LastIsFound(text, c, |front|);
  }

  // ------------------------------------------------------------------ windows

  predicate AllDigits(text: string) { forall c | c in text :: IsDigit(c) }

  lemma CutAtComma(spec: string, inner: string)
    requires ',' !in spec
    ensures
      var rest := spec + "," + inner;
      Find(rest, ',') == Some(|spec|) && rest[..|spec|] == spec && rest[|spec| + 1..] == inner
  {
    SplitAtFirst(spec, ',', inner);
  }

  /** `OFFSET,inner` is everything from there on. */
  lemma OpenWindowIsRead(offset: u64, inner: string)
    requires inner != []
    ensures ParseSubfile(Decimal(offset) + "," + inner) == Ok((offset, TO_END, inner))
  {
    var spec := Decimal(offset);
    assert ',' !in spec && '_' !in spec;
    NumberIsRead(offset);
    CutAtComma(spec, inner);
    hide Find, ParseU64, Decimal;
  }

  lemma SpecIsRead(offset: string, tail: string, inner: string)
    requires inner != [] && AllDigits(offset) && ',' !in tail
    ensures
      var r, parsed := ParseSubfile(offset + "_" + tail + "," + inner), ParseU64(offset);
      r == if parsed.Error? then Error(parsed.error)
           else if tail != [] && tail[0] == '-' then
             if ParseU64(tail[1..]).Ok? then Ok((parsed.value, TO_END, inner)) else Error(ParseU64(tail[1..]).error)
           else if ParseU64(tail).Ok? then Ok((parsed.value, ParseU64(tail).value, inner))
           else Error(ParseU64(tail).error)
  {
    var spec := offset + "_" + tail;
    assert '_' !in offset && ',' !in offset && ',' !in spec;
    SplitAtFirst(offset, '_', tail);
    CutAtComma(spec, inner);
    hide Find, ParseU64;
  }

  /** `OFFSET_LENGTH,inner` is that window on what `inner` names; with a minus sign it has no end. */
  lemma WindowIsRead(offset: u64, length: u64, inner: string)
    requires inner != []
    ensures ParseSubfile(Decimal(offset) + "_" + Decimal(length) + "," + inner) == Ok((offset, length, inner))
    ensures ParseSubfile(Decimal(offset) + "_" + ("-" + Decimal(length)) + "," + inner) == Ok((offset, TO_END, inner))
  {
    NumberIsRead(offset);
    NumberIsRead(length);
    var digits := Decimal(length);
    assert digits[0] in digits && ',' !in digits;
    assert ("-" + digits)[1..] == digits;
    SpecIsRead(Decimal(offset), digits, inner);
    SpecIsRead(Decimal(offset), "-" + digits, inner);
    hide ParseSubfile, ParseU64, Decimal;
  }

  /** So a written window shows its part of what is inside. */
  lemma WindowIsShown<T>(offset: u64, length: u64, inner: string, bytes: seq<T>)
    requires inner != [] && length < TO_END
    ensures Denote(VSI_SUBFILE + (Decimal(offset) + "_" + Decimal(length) + "," + inner), bytes)
         == Slice(Denote(inner, bytes), offset, length)
  {
    WindowIsRead(offset, length, inner);
    var rest := Decimal(offset) + "_" + Decimal(length) + "," + inner;
    hide ParseSubfile, Decimal, TerminalUri, TakeBytesFragment;
    assert (VSI_SUBFILE + rest)[|VSI_SUBFILE|..] == rest;
  }

  /** It resolves, up to sixteen windows deep, exactly if it begins inside the window around it and inside 64
      bits, and ends with that window at the latest. */
  lemma WindowResolves(offset: u64, length: u64, inner: string, depth: nat, locate: Locate, parent: Resolved)
    requires inner != [] && ResolveAt(inner, depth + 1, locate) == Ok(parent)
    ensures
      var r := ResolveAt(VSI_SUBFILE + (Decimal(offset) + "_" + Decimal(length) + "," + inner), depth, locate);
      if depth == 16 || parent.windowOffset + offset > MAX64
         || (parent.windowLength < TO_END && offset > parent.windowLength) then r == Error(MalformedUri)
      else
        r == Ok(Resolved(parent.backend, parent.canonicalUri, parent.windowOffset + offset,
                         if parent.windowLength == TO_END then length
                         else Min(length, parent.windowLength - offset)))
  {
    hide ParseSubfile, Decimal, ResolveAt, ApplyWindow;
    WindowIsRead(offset, length, inner);
    NestResolves(Decimal(offset) + "_" + Decimal(length) + "," + inner, offset, length, inner, depth, locate);
    WindowIsApplied(parent, offset, length);
  }

  lemma NestResolves(rest: string, offset: u64, length: u64, inner: string, depth: nat, locate: Locate)
    requires ParseSubfile(rest) == Ok((offset, length, inner)) && ResolveAt(inner, depth + 1, locate).Ok?
    ensures ResolveAt(VSI_SUBFILE + rest, depth, locate) ==
            if depth == 16 then Error(MalformedUri)
            else ApplyWindow(ResolveAt(inner, depth + 1, locate).value, offset, length)
  {
    hide ParseSubfile, ApplyWindow;
    assert (VSI_SUBFILE + rest)[|VSI_SUBFILE|..] == rest;
  }

  lemma WindowIsApplied(parent: Resolved, offset: u64, length: u64)
    ensures ApplyWindow(parent, offset, length) ==
            if parent.windowOffset + offset > MAX64
               || (parent.windowLength < TO_END && offset > parent.windowLength) then Error(MalformedUri)
            else Ok(Resolved(parent.backend, parent.canonicalUri, parent.windowOffset + offset,
                             if parent.windowLength == TO_END then length
                             else Min(length, parent.windowLength - offset)))
  {}

  // ------------------------------------------------------------------ byte ranges

  lemma CutAtHash(base: string, range: string)
    requires '#' !in range
    ensures
      var uri := base + BYTES_FRAGMENT + range;
      && FindLast(uri, '#') == Some(|base|) && uri[..|base|] == base && StartsWith(uri[|base|..], BYTES_FRAGMENT)
      && uri[|base| + |BYTES_FRAGMENT|..] == range
  {
    var uri := base + BYTES_FRAGMENT + range;
    assert uri == base + ['#'] + ("bytes=" + range);
    SplitAtLast(base, '#', "bytes=" + range);
    assert uri[|base|..] == BYTES_FRAGMENT + range;
    assert uri[|base| + |BYTES_FRAGMENT|..] == range;
  }

  lemma RangeIsRead(base: string, first: string, last: string)
    requires AllDigits(first) && AllDigits(last) && ParseU64(first).Ok? && (last != [] ==> ParseU64(last).Ok?)
    ensures
      TakeBytesFragment(base + BYTES_FRAGMENT + (first + "-" + last)) ==
      var from := ParseU64(first).value;
      if last == [] then Ok((base, from, TO_END))
      else if ParseU64(last).value < from || ParseU64(last).value - from == MAX64 then Error(MalformedUri)
      else Ok((base, from, ParseU64(last).value - from + 1))
  {
    hide Find, FindLast, ParseU64, AllDigits, StartsWith;
    var range := first + "-" + last;
    DigitsAreNoSeparators(first, last);
    SplitAtFirst(first, '-', last);
    CutAtHash(base, range);
  }

  lemma DigitsAreNoSeparators(first: string, last: string)
    requires AllDigits(first) && AllDigits(last)
    ensures '-' !in first && '#' !in first + "-" + last
  {}

  /** `#bytes=FIRST-LAST` is the range from the first to the last byte, both included, and `#bytes=FIRST-`
      everything from the first on. */
  lemma FragmentIsRead(base: string, first: u64, last: u64)
    requires first <= last && last - first < MAX64
    ensures TakeBytesFragment(base + BYTES_FRAGMENT + (Decimal(first) + "-" + Decimal(last)))
         == Ok((base, first, last - first + 1))
    ensures TakeBytesFragment(base + BYTES_FRAGMENT + (Decimal(first) + "-" + "")) == Ok((base, first, TO_END))
  {
    hide TakeBytesFragment, ParseU64, Decimal, IsDigit;
    NumberIsRead(first);
    NumberIsRead(last);
    RangeIsRead(base, Decimal(first), Decimal(last));
    RangeIsRead(base, Decimal(first), "");
  }

  /** A range behind a URI that begins with no alias shows its bytes of the object. */
  lemma FragmentIsShown<T>(base: string, first: u64, last: u64, bytes: seq<T>)
    requires first <= last && last - first < MAX64 - 1 && |base| >= 4 && base[..4] != "/vsi"
    ensures Denote(base + BYTES_FRAGMENT + (Decimal(first) + "-" + Decimal(last)), bytes)
         == Slice(bytes, first, last - first + 1)
  {
    hide TakeBytesFragment, Decimal, TerminalUri, ParseSubfile, StartsWith, Slice;
    FragmentIsRead(base, first, last);
    var uri := base + BYTES_FRAGMENT + (Decimal(first) + "-" + Decimal(last));
    assert uri[..4] == base[..4];
    NoAlias(uri);
    PlainIsShown(uri, base, first, last - first + 1, bytes);
  }

  lemma PlainIsShown<T>(uri: string, base: string, offset: u64, length: u64, bytes: seq<T>)
    requires TerminalUri(uri) == Ok(uri) && !StartsWith(uri, VSI_SUBFILE) && length < TO_END
    requires TakeBytesFragment(uri) == Ok((base, offset, length))
    ensures Denote(uri, bytes) == Slice(bytes, offset, length)
  {
    hide TakeBytesFragment, TerminalUri, ParseSubfile;
  }

  /** And it resolves to that range of the object that its base names. */
  lemma FragmentResolves(base: string, first: u64, last: u64, depth: nat, locate: Locate, backend: Backend,
                         name: string)
    requires first <= last && last - first < MAX64 && |base| >= 4 && base[..4] != "/vsi"
    requires locate(base) == Ok((backend, name))
    ensures ResolveAt(base + BYTES_FRAGMENT + (Decimal(first) + "-" + Decimal(last)), depth, locate)
         == Ok(Resolved(backend, name, first, last - first + 1))
  {
    hide TakeBytesFragment, Decimal, TerminalUri, StartsWith;
    FragmentIsRead(base, first, last);
    var uri := base + BYTES_FRAGMENT + (Decimal(first) + "-" + Decimal(last));
    assert uri[..4] == base[..4];
    NoAlias(uri);
  }

  /** A URI without alias and range is the whole object. */
  lemma PlainResolves(base: string, depth: nat, locate: Locate, backend: Backend, name: string)
    requires |base| >= 4 && base[..4] != "/vsi" && '#' !in base && locate(base) == Ok((backend, name))
    ensures ResolveAt(base, depth, locate) == Ok(Resolved(backend, name, 0, TO_END))
  {
    NoAlias(base);
    hide TerminalUri, StartsWith;
  }

  // ------------------------------------------------------------------ aliases

  lemma {:induction false} AliasIsFound(uri: string, from: nat, i: nat)
    requires from <= i < |ALIASES| && StartsWith(uri, ALIASES[i].0)
    requires forall j | from <= j < i :: !StartsWith(uri, ALIASES[j].0)
    ensures FindAlias(uri, from) == Some(i)
    decreases i - from
  {
    if from < i { AliasIsFound(uri, from + 1, i); }
  }

  lemma {:induction false} NoAliasIsFound(uri: string, from: nat)
    requires from <= |ALIASES| && forall j | from <= j < |ALIASES| :: !StartsWith(uri, ALIASES[j].0)
    ensures FindAlias(uri, from) == None
    decreases |ALIASES| - from
  {
    if from < |ALIASES| { NoAliasIsFound(uri, from + 1); }
  }

  /** A path that does not begin with /vsi stands for itself. */
  lemma NoAlias(uri: string)
    requires |uri| >= 4 && uri[..4] != "/vsi"
    ensures TerminalUri(uri) == Ok(uri) && !StartsWith(uri, VSI_SUBFILE)
  {
    forall j | 0 <= j < |ALIASES| ensures !StartsWith(uri, ALIASES[j].0) {
      assert ALIASES[j].0[..4] == "/vsi";
      BeginsAlike(uri, ALIASES[j].0);
    }
    NoAliasIsFound(uri, 0);
    assert VSI_SUBFILE[..4] == "/vsi";
    BeginsAlike(uri, VSI_SUBFILE);
    assert !StartsWith(uri, "/vsi");
  }

  lemma BeginsAlike(uri: string, prefix: string)
    requires |uri| >= 4 && |prefix| >= 4 && uri[..4] != prefix[..4]
    ensures !StartsWith(uri, prefix)
  {
    var i :| 0 <= i < 4 && uri[..4][i] != prefix[..4][i];
    assert uri[i] != prefix[i];
  }

  /** The alias of a backend stands for its scheme, and a web address may be written behind /vsicurl/. */
  lemma AliasIsRead(rest: string)
    requires rest != []
    ensures TerminalUri("/vsis3/" + rest) == Ok("s3://" + rest) && TerminalUri("/vsigs/" + rest) == Ok("gs://" + rest)
    ensures TerminalUri("/vsiaz/" + rest) == Ok("az://" + rest)
    ensures TerminalUri("/vsiadls/" + rest) == Ok("abfs://" + rest)
    ensures TerminalUri("/vsihf/" + rest) == Ok("hf://" + rest)
    ensures TerminalUri("/vsisource/" + rest) == Ok("source://" + rest)
    ensures StartsWith(rest, "http://") || StartsWith(rest, "https://") ==> TerminalUri("/vsicurl/" + rest) == Ok(rest)
  {
    hide TerminalUri, StartsWith;
    OneAliasIsRead(1, "/vsis3/", "s3://", rest);
    OneAliasIsRead(2, "/vsigs/", "gs://", rest);
    OneAliasIsRead(3, "/vsiaz/", "az://", rest);
    OneAliasIsRead(4, "/vsiadls/", "abfs://", rest);
    OneAliasIsRead(5, "/vsihf/", "hf://", rest);
    OneAliasIsRead(6, "/vsisource/", "source://", rest);
    OneAliasIsRead(0, "/vsicurl/", "", rest);
    assert "" + rest == rest;
  }

  lemma OneAliasIsRead(i: nat, name: string, scheme: string, rest: string)
    requires i < |ALIASES| && ALIASES[i] == (name, scheme) && rest != []
    ensures i > 0 || StartsWith(rest, "http://") || StartsWith(rest, "https://") ==>
              TerminalUri(name + rest) == Ok(scheme + rest)
  {
    var uri := name + rest;
    assert uri[|name|..] == rest;
    assert uri[4] == name[4] && uri[5] == name[5];
    forall j | 0 <= j < i ensures !StartsWith(uri, ALIASES[j].0) {
      assert ALIASES[j].0[4] != name[4] || ALIASES[j].0[5] != name[5];
    }
    AliasIsFound(uri, 0, i);
  }
}
