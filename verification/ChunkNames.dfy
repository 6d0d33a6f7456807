/**
  Chunk files are named by the decimal components of their key (the default chunk key encoding of
  the Zarr core specification, version 3, with "/" as the separator). Renaming a path component is
  renumbering a key.
*/
module ChunkNames {
  import opened ChunkGrid
  import opened ChunkMerge

  function Digit(d: nat): char
    requires d < 10
  {
    ('0' as int + d) as char
  }

  function DigitValue(c: char): (d: Option<nat>)
    ensures d.Some? ==> d.value < 10 && Digit(d.value) == c
  {
    if '0' <= c <= '9' then Some((c as int - '0' as int) as nat) else None
  }

  /** str(n) */
  function Spell(n: nat): string {
    if n < 10 then [Digit(n)] else Spell(n / 10) + [Digit(n % 10)]
  }

  /** int(s) for a run of decimal digits; None stands for ValueError. */
  function Parse(s: string): Option<nat> {
    if s == [] then None
    else
      var last := DigitValue(s[|s| - 1]);
      if last.None? then None
      else if |s| == 1 then last
      else
        var rest := Parse(s[..|s| - 1]);
        if rest.None? then None else Some(rest.value * 10 + last.value)
  }

  /** Appending a digit to a number multiplies it by ten. */
  lemma ParseAppend(s: string, d: nat)
    requires d < 10 && s != [] && Parse(s).Some?
    ensures Parse(s + [Digit(d)]) == Some(Parse(s).value * 10 + d)
  {
    assert (s + [Digit(d)])[..|s|] == s;
  }

  lemma {:induction false} ParseSpell(n: nat)
    ensures Spell(n) != [] && Parse(Spell(n)) == Some(n)
    decreases n
  {
    if n >= 10 {
      ParseSpell(n / 10);
      ParseAppend(Spell(n / 10), n % 10);
    }
  }

  /** Spelling is decimal: the last digit stands for the remainder by ten, and the digits before it spell the quotient. */
  lemma SpellIsDecimal(n: nat, d: nat)
    requires d < 10
    ensures Spell(d) == ["0123456789"[d]]
    ensures n > 0 ==> Spell(n * 10 + d) == Spell(n) + ["0123456789"[d]]
  {
    assert (n * 10 + d) / 10 == n && (n * 10 + d) % 10 == d;
    DigitIsNumeral(d);
  }

  lemma DigitIsNumeral(d: nat)
    requires d < 10
    ensures Digit(d) == "0123456789"[d]
  {
  }

  /** A file name component is a number exactly when it is a non-empty run of digits. */
  lemma {:induction false} ParseIff(s: string)
    ensures Parse(s).Some? <==> s != [] && forall i :: 0 <= i < |s| ==> '0' <= s[i] <= '9'
    decreases |s|
  {
    if |s| > 1 { ParseIff(s[..|s| - 1]); }
  }

  function SpellKey(key: Key): seq<string> {
    seq(|key|, d requires 0 <= d < |key| => Spell(key[d]))
  }

  /** _remap_chunk_tuple */
  function RemapParts(parts: seq<string>, axis: nat, width: nat, destWidth: nat, ids: seq<int>, rank: map<int, nat>)
    : Option<seq<string>>
    requires destWidth > 0 && forall l :: 0 <= l < |ids| ==> ids[l] in rank
  {
    if axis >= |parts| then None
    else match Parse(parts[axis])
         case None => None
         case Some(local) =>
           match DestinationChunkIndex(local, width, destWidth, ids, rank)
           case None => None
           case Some(q) => Some(parts[axis := Spell(q)])
  }

  /** Renaming the file of a chunk is renumbering the chunk. */
  lemma RemapPartsIsRemapKey(key: Key, axis: nat, width: nat, destWidth: nat, ids: seq<int>, rank: map<int, nat>)
    requires destWidth > 0 && forall l :: 0 <= l < |ids| ==> ids[l] in rank
    ensures RemapParts(SpellKey(key), axis, width, destWidth, ids, rank) ==
            match RemapKey(key, axis, width, destWidth, ids, rank)
            case None => None
            case Some(target) => Some(SpellKey(target))
  {
    if axis < |key| {
      ParseSpell(key[axis]);
      match DestinationChunkIndex(key[axis], width, destWidth, ids, rank)
      case None =>
      case Some(q) => assert SpellKey(key)[axis := Spell(q)] == SpellKey(key[axis := q]);
    }
  }

  /** A file whose ensemble component is not a number, or that has none, is not renamed. */
  lemma NotAChunkFile(parts: seq<string>, axis: nat, width: nat, destWidth: nat, ids: seq<int>, rank: map<int, nat>)
    requires destWidth > 0 && forall l :: 0 <= l < |ids| ==> ids[l] in rank
    requires axis >= |parts| || parts[axis] == [] || exists i :: 0 <= i < |parts[axis]| && !('0' <= parts[axis][i] <= '9')
    ensures RemapParts(parts, axis, width, destWidth, ids, rank) == None
  {
    if axis < |parts| { ParseIff(parts[axis]); }
  }

  /** Different chunks have different files. */
  lemma SpellKeyInjective(j: Key, k: Key)
    requires SpellKey(j) == SpellKey(k)
    ensures j == k
  {
    assert |SpellKey(j)| == |SpellKey(k)|;
    forall d | 0 <= d < |j| ensures j[d] == k[d] {
      assert SpellKey(j)[d] == SpellKey(k)[d];
      ParseSpell(j[d]);
      ParseSpell(k[d]);
    }
  }
}
