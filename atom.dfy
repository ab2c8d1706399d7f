/**
 * Atom construction and the per-connection atom cache (`src/atom.rs`).
 */
module Atoms {
  import opened Types
  import Ei
  import Utf8

  /**
   * The most Unicode scalar values an atom may hold (255). `ei.h`'s
   * `MAXATOMLEN` is one more: it sizes a buffer and counts the terminator.
   */
  const MAX_ATOM_CHARS: nat := Ei.MAXATOMLEN - 1

  /**
   * `Atom::new` as written: it refuses only text of more than `MAXATOMLEN`
   * (256) scalar values, so a 256-character atom gets through.
   */
  function NewAtomAsWritten(text: seq<uint8>): (r: Result<Atom>)
    requires Utf8.Valid(text)
    ensures r.Ok? <==> Utf8.CharCount(text) <= MAX_ATOM_CHARS + 1
    ensures r.Ok? ==> r.value.text == text
    ensures r.Err? ==> r.error == AtomLengthOutOfRange(text, Utf8.CharCount(text))
  {
    var textLen := Utf8.CharCount(text);
    if textLen > Ei.MAXATOMLEN then Err(AtomLengthOutOfRange(text, textLen))
    else Ok(Atom.Atom(text))
  }

  /**
   * `Atom::new` corrected: accepts text of at most 255 Unicode scalar values,
   * the limit its error message and the `Atom` documentation state. The
   * text is a Rust string, hence well-formed UTF-8.
   */
  function NewAtom(text: seq<uint8>): (r: Result<Atom>)
    requires Utf8.Valid(text)
    ensures r.Ok? <==> Utf8.CharCount(text) <= MAX_ATOM_CHARS
    ensures r.Ok? ==> r.value.text == text
    ensures r.Err? ==> r.error == AtomLengthOutOfRange(text, Utf8.CharCount(text))
  {
    var textLen := Utf8.CharCount(text);
    if textLen > MAX_ATOM_CHARS then Err(AtomLengthOutOfRange(text, textLen))
    else Ok(Atom.Atom(text))
  }

  /** 256 letters `a` make an atom as written, though the corrected check refuses them as too long. */
  lemma AsWrittenAcceptsLongAtom()
    ensures var text := seq(256, _ => 0x61 as uint8);
      && Utf8.Valid(text)
      && NewAtomAsWritten(text).Ok?
      && NewAtom(text) == Err(AtomLengthOutOfRange(text, 256))
  {
    var text := seq(256, _ => 0x61 as uint8);
    Utf8.AsciiIsValid(text);
  }

  /** What every atom the core builds satisfies. */
  predicate ValidAtom(a: Atom) {
    Utf8.Valid(a.text) && Utf8.CharCount(a.text) <= MAX_ATOM_CHARS
  }

  /** `str::from_utf8` followed by `Atom::new`, as every decoder of atom bytes does it. */
  function AtomFromBytes(bytes: seq<uint8>): (r: Result<Atom>)
    ensures r.Ok? <==> Utf8.Valid(bytes) && Utf8.CharCount(bytes) <= MAX_ATOM_CHARS
    ensures r.Ok? ==> r.value.text == bytes && ValidAtom(r.value)
    ensures !Utf8.Valid(bytes) ==> r.Err? && r.error.Utf8?
    ensures Utf8.Valid(bytes) && r.Err? ==> r.error == AtomLengthOutOfRange(bytes, Utf8.CharCount(bytes))
  {
    var text :- Utf8.FromUtf8(bytes);
    NewAtom(text)
  }

  /** Valid text of at most 255 bytes always makes an atom: a scalar value takes at least one byte. */
  lemma ShortTextIsAtom(bytes: seq<uint8>)
    requires Utf8.Valid(bytes) && |bytes| <= MAX_ATOM_CHARS
    ensures AtomFromBytes(bytes).Ok?
  {
    Utf8.CharCountBounds(bytes);
  }

  /** An atom is at most 4 * 255 bytes long, so it always fits the zero-terminated C buffer. */
  lemma AtomFitsCBuffer(a: Atom)
    requires ValidAtom(a)
    ensures |a.text| < Ei.MAXATOMLEN_UTF8
  {
    Utf8.CharCountBounds(a.text);
  }

  /**
   * The atom cache of one connection: a map from (segment, slot) keys to
   * atoms, updated in place by the distribution-header decoder.
   */
  class AtomCache {
    var entries: map<AtomCacheKey, Atom>

    /** `AtomCache::new`: an empty cache. */
    constructor ()
      ensures entries == map[]
    {
      entries := map[];
    }

    /** `AtomCache::insert`: binds `key` to `atom` and returns the binding it replaced, if any. */
    method Insert(key: AtomCacheKey, atom: Atom) returns (previous: Option<Atom>)
      modifies this
      ensures entries == old(entries)[key := atom]
      ensures key in entries && entries[key] == atom
      ensures forall k :: k in old(entries) && k != key ==> k in entries && entries[k] == old(entries)[k]
      ensures forall k :: k in entries && k != key ==> k in old(entries)
      ensures previous == if key in old(entries) then Some(old(entries)[key]) else None
    {
      previous := if key in entries then Some(entries[key]) else None;
      entries := entries[key := atom];
    }

    /** Indexing: the key must be bound (the source panics otherwise). */
    function Index(key: AtomCacheKey): (atom: Atom)
      reads this
      requires key in entries
      ensures (key, atom) in entries.Items
    {
      entries[key]
    }
  }
}
