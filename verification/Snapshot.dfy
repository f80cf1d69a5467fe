/** The byte stream that the snapshot of the extension's release inputs feeds to its digest. */
module Snapshot {
  import opened Wrappers
  import opened Bytes

  /**
   A release input: its path below the extension, as UTF-8 bytes, its content and when it was last changed
   (0 is the epoch).
   */
  datatype Input = Input(path: seq<Byte>, content: seq<Byte>, modified: int)

  datatype Error = NoInputs | Overflow

  // ----- The encoding and its inverse -----

  predicate Fits(f: Input) {
    |f.path| < Power256(4) && |f.content| < Power256(8)
  }

  function EncodeOne(f: Input): seq<Byte> {
    BigEndian(|f.path|, 4) + f.path + BigEndian(|f.content|, 8) + f.content
  }

  /** The bytes of one input: its path behind four bytes of length, its content behind eight, the highest byte first. */
  lemma EncodedBytes(f: Input)
    ensures var s, p := EncodeOne(f), |f.path|;
            && |s| == 12 + p + |f.content| && s[4..4 + p] == f.path && s[12 + p..] == f.content
            && (forall i :: 0 <= i < 4 ==> s[i] == p / Power256(3 - i) % 256)
            && forall k :: 4 + p <= k < 12 + p ==> s[k] == |f.content| / Power256(11 + p - k) % 256
  {
    hide BigEndian, Power256;
    var s, p := EncodeOne(f), |f.path|;
    forall i | 0 <= i < 4 ensures s[i] == p / Power256(3 - i) % 256 {
      BigEndianByte(p, 4, i);
    }
    forall k | 4 + p <= k < 12 + p ensures s[k] == |f.content| / Power256(11 + p - k) % 256 {
      BigEndianByte(|f.content|, 8, k - 4 - p);
      assert s[k] == BigEndian(|f.content|, 8)[k - 4 - p];
    }
  }

  function Encode(files: seq<Input>): seq<Byte> {
    if files == [] then [] else Encode(files[..|files| - 1]) + EncodeOne(files[|files| - 1])
  }

  /** A length of the given width, that many bytes, and what follows. */
  function TakeField(s: seq<Byte>, width: nat): (r: Option<(seq<Byte>, seq<Byte>)>)
    ensures r.Some? ==> |r.value.1| + width <= |s|
  {
    if |s| < width then None
    else
      var size := Unsigned(s[..width]);
      if |s| < width + size then None else Some((s[width..width + size], s[width + size..]))
  }

  /** The paths and contents behind a byte stream. */
  function Decode(s: seq<Byte>): Option<seq<(seq<Byte>, seq<Byte>)>>
    decreases |s|
  {
    if s == [] then Some([])
    else
      match TakeField(s, 4)
      case None => None
      case Some((path, s')) =>
        match TakeField(s', 8)
        case None => None
        case Some((content, s'')) =>
          match Decode(s'')
          case None => None
          case Some(more) => Some([(path, content)] + more)
  }

  function Named(files: seq<Input>): (r: seq<(seq<Byte>, seq<Byte>)>)
    ensures |r| == |files| && forall i :: 0 <= i < |r| ==> r[i] == (files[i].path, files[i].content)
  {
    seq(|files|, i requires 0 <= i < |files| => (files[i].path, files[i].content))
  }

  lemma FieldRoundTrip(width: nat, field: seq<Byte>, rest: seq<Byte>)
    requires |field| < Power256(width)
    ensures TakeField(BigEndian(|field|, width) + field + rest, width) == Some((field, rest))
  {
    hide BigEndian, Unsigned, Power256;
    UnsignedRoundTrip(|field|, width);
    var s := BigEndian(|field|, width) + field + rest;
    assert s[..width] == BigEndian(|field|, width);
    assert s[width..width + |field|] == field && s[width + |field|..] == rest;
  }

  lemma EncodeCons(f: Input, files: seq<Input>)
    ensures Encode([f] + files) == EncodeOne(f) + Encode(files)
    decreases |files|
  {
    var all := [f] + files;
    if files == [] {
      assert all[..0] == [] && Encode(all) == EncodeOne(f);
    } else {
      assert all[..|all| - 1] == [f] + files[..|files| - 1];
      EncodeCons(f, files[..|files| - 1]);
      Append(EncodeOne(f), Encode(files[..|files| - 1]), EncodeOne(files[|files| - 1]));
    }
  }

  /** One input's bytes decode to it, in front of whatever the rest decodes to. */
  lemma DecodeOne(f: Input, rest: seq<Byte>, more: seq<(seq<Byte>, seq<Byte>)>)
    requires Fits(f) && Decode(rest) == Some(more)
    ensures Decode(EncodeOne(f) + rest) == Some([(f.path, f.content)] + more)
  {
    hide BigEndian, Unsigned, Power256, TakeField;
    var path, content := BigEndian(|f.path|, 4), BigEndian(|f.content|, 8);
    var second := content + f.content + rest;
    Append(path + f.path, content, f.content);
    Append(path + f.path, content + f.content, rest);
    FieldRoundTrip(4, f.path, second);
    FieldRoundTrip(8, f.content, rest);
    assert path + f.path + second != [];
  }

  lemma NamedCons(files: seq<Input>)
    requires files != []
    ensures files == [files[0]] + files[1..]
    ensures Named(files) == [(files[0].path, files[0].content)] + Named(files[1..])
  {
  }

  lemma DecodeNothing()
    ensures Decode(Encode([])) == Some(Named([]))
  {
  }

  /** The stream is uniquely decodable: it gives back every path and every content. */
  lemma {:induction false} DecodeEncode(files: seq<Input>)
    requires forall i :: 0 <= i < |files| ==> Fits(files[i])
    ensures Decode(Encode(files)) == Some(Named(files))
    decreases |files|
  {
    hide Fits, EncodeOne, Decode, Encode;
    if files == [] {
      DecodeNothing();
    } else {
      hide Named;
      var f, more := files[0], files[1..];
      NamedCons(files);
      EncodeCons(f, more);
      DecodeEncode(more);
      DecodeOne(f, Encode(more), Named(more));
    }
  }

  /** So two lists of inputs give the digest the same bytes only if they have the same paths and contents. */
  lemma {:induction false} EncodeIsInjective(a: seq<Input>, b: seq<Input>)
    requires forall i :: 0 <= i < |a| ==> Fits(a[i])
    requires forall i :: 0 <= i < |b| ==> Fits(b[i])
    ensures Encode(a) == Encode(b) <==> Named(a) == Named(b)
  {
    DecodeEncode(a);
    DecodeEncode(b);
    if Named(a) == Named(b) {
      SameNamesSameBytes(a, b);
    }
  }

  lemma {:induction false} SameNamesSameBytes(a: seq<Input>, b: seq<Input>)
    requires Named(a) == Named(b)
    ensures Encode(a) == Encode(b)
    decreases |a|
  {
    assert |Named(b)| == |b|;
    if a != [] {
      hide BigEndian;
      var n := |a| - 1;
      assert Named(a)[n] == Named(b)[n];
      NamedFront(a);
      NamedFront(b);
      SameNamesSameBytes(a[..n], b[..n]);
    }
  }

  lemma NamedFront(files: seq<Input>)
    requires files != []
    ensures Named(files[..|files| - 1]) == Named(files)[..|files| - 1]
  {
  }

  // ----- The code -----

  /** The digest as far as it matters: the bytes it has been fed. */
  class Digest {
    var fed: seq<Byte>

    constructor ()
      ensures fed == []
    {
      fed := [];
    }

    method Update(bytes: seq<Byte>)
      modifies this
      ensures fed == old(fed) + bytes
    {
      fed := fed + bytes;
    }
  }

  predicate Latest(files: seq<Input>, modified: int) {
    && (forall i :: 0 <= i < |files| ==> files[i].modified <= modified)
    && 0 <= modified && (modified == 0 || exists i :: 0 <= i < |files| && files[i].modified == modified)
  }

  /** Feeds every input to the digest and finds the latest change; a length that does not fit is an error. */
  method TakeSnapshot(files: seq<Input>, digest: Digest) returns (r: Result<int, Error>)
    requires digest.fed == []
    modifies digest
    ensures r.Success? <==> files != [] && forall i :: 0 <= i < |files| ==> Fits(files[i])
    ensures r.Success? ==> digest.fed == Encode(files) && Latest(files, r.value)
  {
    if files == [] {
      return Failure(NoInputs);
    }
    var newest := 0;
    for i := 0 to |files|
      invariant forall k :: 0 <= k < i ==> Fits(files[k])
      invariant digest.fed == Encode(files[..i]) && Latest(files[..i], newest)
    {
      hide BigEndian, Power256, Encode, Latest;
      var f := files[i];
      EncodeNext(files, i);
      if !Fits(f) {
        return Failure(Overflow);
      }
      digest.Update(BigEndian(|f.path|, 4));
      digest.Update(f.path);
      digest.Update(BigEndian(|f.content|, 8));
      digest.Update(f.content);
      ghost var was := newest;
      newest := if f.modified > newest then f.modified else newest;
      LatestNext(files, i, was);
    }
    assert files[..|files|] == files;
    return Success(newest);
  }

  lemma EncodeNext(files: seq<Input>, i: nat)
    requires i < |files|
    ensures Encode(files[..i + 1]) == Encode(files[..i]) + BigEndian(|files[i].path|, 4) + files[i].path
                                      + BigEndian(|files[i].content|, 8) + files[i].content
  {
    hide BigEndian;
    assert files[..i + 1][..i] == files[..i];
    var path, content := BigEndian(|files[i].path|, 4), BigEndian(|files[i].content|, 8);
    Append(Encode(files[..i]), path + files[i].path + content, files[i].content);
    Append(Encode(files[..i]), path + files[i].path, content);
    Append(Encode(files[..i]), path, files[i].path);
  }

  lemma LatestNext(files: seq<Input>, i: nat, newest: int)
    requires i < |files| && Latest(files[..i], newest)
    ensures Latest(files[..i + 1], if files[i].modified > newest then files[i].modified else newest)
  {
    assert files[..i + 1] == files[..i] + [files[i]];
    if files[i].modified > newest {
      assert files[..i + 1][i].modified == files[i].modified;
    } else if newest != 0 {
      var k :| 0 <= k < i && files[..i][k].modified == newest;
      assert files[..i + 1][k].modified == newest;
    }
  }
}
