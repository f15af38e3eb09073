/** The byte string fed to the variant hash. Two variants share a file name,
    before hashing, exactly when their Vary snapshots are equal. */
module VariantHash {
  import opened Wrappers
  import opened Text
  import opened Policy

  const NUL: char := 0 as char
  const ONE: char := 1 as char

  function EncodeValue(value: Option<string>): string {
    match value
    case Some(v) => [ONE] + v
    case None => [NUL]
  }

  function EncodeItem(item: (string, Option<string>)): string {
    item.0 + [NUL] + (EncodeValue(item.1) + [NUL])
  }

  function Encode(snapshot: Snapshot): string {
    if snapshot == [] then [] else EncodeItem(snapshot[0]) + Encode(snapshot[1..])
  }

  // The hasher's input, fed piece by piece.
  method HashInput(snapshot: Snapshot) returns (fed: string)
    ensures fed == Encode(snapshot)
  {
    fed := [];
    var i := 0;
    while i < |snapshot|
      invariant 0 <= i <= |snapshot|
      invariant fed + Encode(snapshot[i..]) == Encode(snapshot)
    {
      EncodeStep(fed, snapshot, i);
      fed := FeedItem(fed, snapshot[i]);
      i := i + 1;
    }
    assert fed + [] == fed;
  }

  method FeedItem(fed: string, item: (string, Option<string>)) returns (out: string)
    ensures out == fed + EncodeItem(item)
  {
    out := fed + item.0;
    out := out + [NUL];
    match item.1 {
      case Some(v) =>
        out := out + [ONE];
        out := out + v;
      case None => out := out + [NUL];
    }
    out := out + [NUL];
  }

  lemma EncodeStep(fed: string, snapshot: Snapshot, i: nat)
    requires i < |snapshot|
    ensures fed + Encode(snapshot[i..]) == (fed + EncodeItem(snapshot[i])) + Encode(snapshot[i + 1..])
  {
    assert snapshot[i..][1..] == snapshot[i + 1..];
  }

  predicate NulFreeItem(item: (string, Option<string>)) {
    NUL !in item.0 && (item.1.Some? ==> NUL !in item.1.value)
  }

  predicate NulFree(snapshot: Snapshot) {
    forall i :: 0 <= i < |snapshot| ==> NulFreeItem(snapshot[i])
  }

  lemma ValueUpToNul(a: Option<string>, x: string, b: Option<string>, y: string)
    requires a.Some? ==> NUL !in a.value
    requires b.Some? ==> NUL !in b.value
    requires EncodeValue(a) + [NUL] + x == EncodeValue(b) + [NUL] + y
    ensures a == b && x == y
  {
    var s, t := EncodeValue(a) + [NUL] + x, EncodeValue(b) + [NUL] + y;
    assert s[0] == t[0];
    if a.Some? {
      UpToFirst(NUL, EncodeValue(a), x, EncodeValue(b), y);
      assert EncodeValue(a)[1..] == a.value && EncodeValue(b)[1..] == b.value;
    } else {
      assert s[2..] == x && t[2..] == y;
    }
  }

  lemma EncodeHead(a: Snapshot)
    requires a != []
    ensures Encode(a) == a[0].0 + [NUL] + (EncodeValue(a[0].1) + [NUL] + Encode(a[1..]))
  {
  }

  // Injective over all NUL-free snapshots, absent and empty values told apart.
  lemma {:induction false} EncodeIsInjective(a: Snapshot, b: Snapshot)
    requires NulFree(a) && NulFree(b)
    ensures Encode(a) == Encode(b) <==> a == b
  {
    if Encode(a) == Encode(b) && a != [] && b != [] {
      EncodeHead(a);
      EncodeHead(b);
      UpToFirst(NUL, a[0].0, EncodeValue(a[0].1) + [NUL] + Encode(a[1..]),
              b[0].0, EncodeValue(b[0].1) + [NUL] + Encode(b[1..]));
      ValueUpToNul(a[0].1, Encode(a[1..]), b[0].1, Encode(b[1..]));
      EncodeIsInjective(a[1..], b[1..]);
      assert a == [a[0]] + a[1..] && b == [b[0]] + b[1..];
    }
  }

  // So two policies share a hash input exactly when they are the same variant.
  lemma SameInputIffSameVariant(p: CachePolicy, q: CachePolicy)
    requires NulFree(p.varySnapshot) && NulFree(q.varySnapshot)
    ensures Encode(p.varySnapshot) == Encode(q.varySnapshot) <==> SameVariantAs(p, q)
  {
    EncodeIsInjective(p.varySnapshot, q.varySnapshot);
  }

  // A NUL inside a value can forge an item boundary.
  lemma NulForgesBoundary(name: string, x: string, other: string, y: string)
    ensures Encode([(name, Some(x + [NUL] + other + [NUL] + [ONE] + y))])
            == Encode([(name, Some(x)), (other, Some(y))])
  {
    var forged := (name, Some(x + [NUL] + other + [NUL] + [ONE] + y));
    EncodeOne(forged);
    EncodeOne((other, Some(y)));
    var honest := [(name, Some(x)), (other, Some(y))];
    assert honest[1..] == [(other, Some(y))];
    assert EncodeItem(forged) == EncodeItem((name, Some(x))) + EncodeItem((other, Some(y)));
  }

  lemma EncodeOne(item: (string, Option<string>))
    ensures Encode([item]) == EncodeItem(item)
  {
    assert [item][1..] == [];
    assert EncodeItem(item) + [] == EncodeItem(item);
  }
}

/** The names of the files in a key directory. */
module FileNames {
  import opened Text

  // A committed file, or a temporary with its number.
  datatype Kind = Final(isMeta: bool) | Temp(isMeta: bool, n: nat)

  function Suffix(isMeta: bool): string {
    if isMeta then "meta" else "body"
  }

  function Tail(kind: Kind): string {
    match kind
    case Final(isMeta) => Suffix(isMeta)
    case Temp(isMeta, n) => Suffix(isMeta) + ['.'] + ("tmp" + ['.'] + ToDecimal(n))
  }

  // The digest is hexadecimal, so it holds no dot.
  function FileName(digest: string, kind: Kind): string {
    digest + ['.'] + Tail(kind)
  }

  lemma TailIsInjective(a: Kind, b: Kind)
    requires Tail(a) == Tail(b)
    ensures a == b
  {
    if a.Temp? && b.Temp? {
      UpToFirst('.', Suffix(a.isMeta), "tmp" + ['.'] + ToDecimal(a.n),
                Suffix(b.isMeta), "tmp" + ['.'] + ToDecimal(b.n));
      UpToFirst('.', "tmp", ToDecimal(a.n), "tmp", ToDecimal(b.n));
      DecimalRoundTrip(a.n);
      DecimalRoundTrip(b.n);
    }
  }

  // No two files of a directory share a name, and only a committed metadata
  // file passes the `.meta` filter of a lookup: no temporary is ever read.
  lemma NamesAreDistinct(digest: string, a: Kind, other: string, b: Kind)
    requires '.' !in digest && '.' !in other
    ensures FileName(digest, a) == FileName(other, b) <==> digest == other && a == b
    ensures var name := FileName(digest, a);
            |name| >= 5 && (name[|name| - 5..] == ".meta" <==> a == Final(true))
  {
    if FileName(digest, a) == FileName(other, b) {
      UpToFirst('.', digest, Tail(a), other, Tail(b));
      TailIsInjective(a, b);
    }
    var name := FileName(digest, a);
    if a.Temp? {
      var digits := ToDecimal(a.n);
      assert name[|name| - 1] == digits[|digits| - 1];
      assert IsDigit(digits[|digits| - 1]);
      assert name[|name| - 5..][4] == name[|name| - 1];
    } else {
      assert name[|name| - 5..] == ['.'] + Suffix(a.isMeta);
      assert Suffix(false)[0] == 'b' && Suffix(true)[0] == 'm';
      assert (['.'] + Suffix(a.isMeta))[1] == Suffix(a.isMeta)[0];
    }
  }
}
