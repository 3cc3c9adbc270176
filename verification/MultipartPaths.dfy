/** Names of multipart chunks and groups, and the assembly of an object from its chunks
    (gcs/gcs.go, storage/providers/os.go). */
module MultipartPaths {
  import opened Common

  // ---------- %d ----------

  const DIGITS := "0123456789"

  function DecimalNat(n: nat): (s: string)
    ensures s != "" && forall c | c in s :: c in DIGITS
  {
    if n < 10 then [DIGITS[n]] else DecimalNat(n / 10) + [DIGITS[n % 10]]
  }

  /** fmt.Sprintf("%d", n). */
  function Decimal(n: int): string {
    if n < 0 then "-" + DecimalNat(-n) else DecimalNat(n)
  }

  function DigitValue(c: char): nat {
    if '0' <= c <= '9' then (c - '0') as nat else 0
  }

  function ReadNat(s: string): nat {
    if s == "" then 0 else 10 * ReadNat(s[..|s| - 1]) + DigitValue(s[|s| - 1])
  }

  lemma {:induction false} ReadNatOfDecimal(n: nat)
    ensures ReadNat(DecimalNat(n)) == n
  {
    var d := DIGITS[n % 10];
    assert DigitValue(d) == n % 10;
    if n < 10 {
      assert [d][..0] == "";
      assert ReadNat([d]) == 10 * ReadNat("") + DigitValue(d);
    } else {
      ReadNatOfDecimal(n / 10);
      assert (DecimalNat(n / 10) + [d])[..|DecimalNat(n / 10)|] == DecimalNat(n / 10);
    }
  }

  lemma DecimalInjective(m: int, n: int)
    requires Decimal(m) == Decimal(n)
    ensures m == n
  {
    var (a, b) := (if m < 0 then -m else m, if n < 0 then -n else n);
    ReadNatOfDecimal(a);
    ReadNatOfDecimal(b);
    assert '-' !in DIGITS;
    assert DecimalNat(a)[0] in DecimalNat(a) && DecimalNat(b)[0] in DecimalNat(b);
    assert (m < 0) == (Decimal(m)[0] == '-') && (n < 0) == (Decimal(n)[0] == '-');
    assert m < 0 ==> DecimalNat(a) == Decimal(m)[1..] == Decimal(n)[1..] == DecimalNat(b);
  }

  // ---------- Paths ----------

  function UploadDir(objectName: string, uploadId: string): string {
    objectName + ".parts" + "/" + uploadId
  }

  function ChunkPath(objectName: string, uploadId: string, number: int): string {
    UploadDir(objectName, uploadId) + "/" + Decimal(number)
  }

  function GroupPath(objectName: string, uploadId: string, group: nat): string {
    UploadDir(objectName, uploadId) + "/group_" + Decimal(group)
  }

  /** No group is a chunk, no two groups or chunks share a path, and the object itself is none of them. */
  lemma PathsAreDistinct(objectName: string, uploadId: string, number: int, number': int, g: nat, g': nat)
    ensures GroupPath(objectName, uploadId, g) != ChunkPath(objectName, uploadId, number)
    ensures GroupPath(objectName, uploadId, g) == GroupPath(objectName, uploadId, g') <==> g == g'
    ensures ChunkPath(objectName, uploadId, number) == ChunkPath(objectName, uploadId, number') <==> number == number'
    ensures objectName != GroupPath(objectName, uploadId, g) && objectName != ChunkPath(objectName, uploadId, number)
  {
    var dir := UploadDir(objectName, uploadId);
    var (c, c') := (ChunkPath(objectName, uploadId, number), ChunkPath(objectName, uploadId, number'));
    var (p, p') := (GroupPath(objectName, uploadId, g), GroupPath(objectName, uploadId, g'));
    assert p[|dir| + 1] == 'g';
    assert c[|dir| + 1] == Decimal(number)[0];
    DecimalStart(number);
    if p == p' {
      assert Decimal(g) == p[|dir| + 7..] && Decimal(g') == p'[|dir| + 7..];
      DecimalInjective(g, g');
    }
    if c == c' {
      assert Decimal(number) == c[|dir| + 1..] && Decimal(number') == c'[|dir| + 1..];
      DecimalInjective(number, number');
    }
    assert |objectName| < |dir|;
  }

  lemma DecimalStart(n: int)
    ensures Decimal(n) != "" && Decimal(n)[0] != 'g'
  {
    var a := if n < 0 then -n else n;
    assert DecimalNat(a)[0] in DecimalNat(a);
    assert 'g' !in DIGITS;
  }

  lemma NoSlash(n: int)
    ensures '/' !in Decimal(n) && '/' !in "group_" + Decimal(n)
  {
    var a := if n < 0 then -n else n;
    assert '/' !in DIGITS;
    assert forall c | c in Decimal(n) :: c == '-' || c in DecimalNat(a);
  }

  lemma LastPart(a: string, x: string, b: string, y: string)
    requires a + "/" + x == b + "/" + y && '/' !in x && '/' !in y
    ensures a == b && x == y
  {
    var s := a + "/" + x;
    assert s[|a|] == '/' && s[|b|] == '/';
    assert forall k | |a| < k < |s| :: s[k] == x[k - |a| - 1];
    assert forall k | |b| < k < |s| :: s[k] == y[k - |b| - 1];
    assert s[..|a|] == a && s[..|b|] == b && s[|a| + 1..] == x && s[|b| + 1..] == y;
  }

  /** Different ids, of one length as UUIDs are, or at least without a slash in them. */
  predicate Unlike(u: string, v: string) {
    u != v && (|u| == |v| || ('/' !in u && '/' !in v))
  }

  lemma DirsDiffer(o: string, u: string, o': string, v: string)
    requires Unlike(u, v)
    ensures UploadDir(o, u) != UploadDir(o', v)
  {
    var (d, d') := (UploadDir(o, u), UploadDir(o', v));
    assert d[|d| - |u|..] == u && d'[|d'| - |v|..] == v;
    if d == d' && '/' !in u && '/' !in v {
      LastPart(o + ".parts", u, o' + ".parts", v);
    }
  }

  /** Two uploads never share a chunk's or a group's path, of one object or of two. */
  lemma UploadsKeepApart(o: string, u: string, o': string, v: string, number: int, number': int, g: nat, g': nat)
    requires Unlike(u, v)
    ensures ChunkPath(o, u, number) != ChunkPath(o', v, number')
    ensures GroupPath(o, u, g) != GroupPath(o', v, g')
    ensures ChunkPath(o, u, number) != GroupPath(o', v, g')
  {
    hide UploadDir, Decimal;
    var (d, d') := (UploadDir(o, u), UploadDir(o', v));
    DirsDiffer(o, u, o', v);
    NoSlash(number);
    NoSlash(number');
    NoSlash(g);
    NoSlash(g');
    assert GroupPath(o, u, g) == d + "/" + ("group_" + Decimal(g));
    assert GroupPath(o', v, g') == d' + "/" + ("group_" + Decimal(g'));
    if ChunkPath(o, u, number) == ChunkPath(o', v, number') {
      LastPart(d, Decimal(number), d', Decimal(number'));
    }
    if GroupPath(o, u, g) == GroupPath(o', v, g') {
      LastPart(d, "group_" + Decimal(g), d', "group_" + Decimal(g'));
    }
    if ChunkPath(o, u, number) == GroupPath(o', v, g') {
      LastPart(d, Decimal(number), d', "group_" + Decimal(g'));
    }
  }

  lemma PrefixAfter(a: string, u: string, w: string)
    ensures a + u <= a + w <==> u <= w
  {
    if a + u <= a + w {
      assert u == (a + w)[..|a| + |u|][|a|..] == w[..|u|];
    }
  }

  lemma StartsWithDir(u: string, w: string)
    requires u + "/" <= w
    ensures |u| < |w| && w[|u|] == '/' && w[..|u|] == u
  {
    assert w[|u|] == w[..|u| + 1][|u|];
    assert w[..|u|] == w[..|u| + 1][..|u|];
  }

  lemma IdsAsPrefixes(u: string, v: string, d: string)
    requires Unlike(u, v) && '/' !in d
    ensures u <= v + "/" + d <==> u <= v
    ensures !(u + "/" <= v + "/" + d)
  {
    var w := v + "/" + d;
    assert w[..|v|] == v && w[|v|] == '/' && forall k | |v| < k < |w| :: w[k] == d[k - |v| - 1];
    assert forall k | 0 <= k < |u| :: u[k] in u;
    assert forall k | 0 <= k < |v| :: v[k] in v;
    if u + "/" <= w {
      StartsWithDir(u, w);
    }
  }

  /** One upload's directory starts a chunk's path of another upload of the object exactly when its id starts the
      other's; no id does of those that have one length. */
  lemma DirHoldsChunk(o: string, u: string, v: string, number: int)
    requires Unlike(u, v)
    ensures UploadDir(o, u) <= ChunkPath(o, v, number) <==> u <= v
    ensures !(UploadDir(o, u) + "/" <= ChunkPath(o, v, number))
    ensures ChunkPath(o, v, number) != UploadDir(o, u)
  {
    hide Decimal;
    var (a, w) := (o + ".parts" + "/", v + "/" + Decimal(number));
    assert ChunkPath(o, v, number) == a + w && UploadDir(o, u) == a + u && UploadDir(o, u) + "/" == a + (u + "/");
    PrefixAfter(a, u, w);
    PrefixAfter(a, u + "/", w);
    NoSlash(number);
    IdsAsPrefixes(u, v, Decimal(number));
    if w == u {
      PrefixAfter("", u, w);
    }
  }

  /** What the paths look like. */
  lemma PathsSpelledOut()
    ensures ChunkPath("a.txt", "id", 12) == "a.txt.parts/id/12" && ChunkPath("a.txt", "id", -1) == "a.txt.parts/id/-1"
    ensures GroupPath("a.txt", "id", 3) == "a.txt.parts/id/group_3"
  {
    assert DecimalNat(12) == DecimalNat(1) + "2" == "12" && DecimalNat(1) == "1" && DecimalNat(3) == "3";
  }

  function ChunkNames(objectName: string, uploadId: string, numbers: seq<int>): seq<string> {
    seq(|numbers|, i requires 0 <= i < |numbers| => ChunkPath(objectName, uploadId, numbers[i]))
  }

  /** One multipart upload as a caller makes it: its chunks, and the order in which they are to make up the object. */
  datatype Upload = Upload(id: string, numbers: seq<int>, bodies: seq<Bytes>, order: seq<nat>) {
    ghost predicate Proper() {
      |numbers| == |bodies| && Distinct(numbers) && forall k | k in order :: k < |bodies|
    }
  }

  // ---------- Assembly ----------

  ghost predicate AllIn(names: seq<string>, store: map<string, Bytes>) {
    forall n | n in names :: n in store
  }

  /** The contents stored under the given names, one after the other. */
  function ConcatOf(store: map<string, Bytes>, names: seq<string>): Bytes {
    if names == [] then ""
    else ConcatOf(store, names[..|names| - 1])
         + if names[|names| - 1] in store then store[names[|names| - 1]] else ""
  }

  lemma ConcatOfNone(store: map<string, Bytes>, names: seq<string>)
    ensures ConcatOf(store, names[..0]) == ""
  {
  }

  lemma ConcatOfNext(store: map<string, Bytes>, names: seq<string>, i: nat)
    requires i < |names|
    ensures ConcatOf(store, names[..i + 1])
              == ConcatOf(store, names[..i]) + if names[i] in store then store[names[i]] else ""
  {
    assert names[..i + 1][..i] == names[..i];
  }

  lemma ConcatOfMore(store: map<string, Bytes>, names: seq<string>, n: string)
    ensures ConcatOf(store, names + [n]) == ConcatOf(store, names) + if n in store then store[n] else ""
  {
    assert (names + [n])[..|names|] == names;
  }

  lemma {:induction false} ConcatOfSplit(store: map<string, Bytes>, a: seq<string>, b: seq<string>)
    ensures ConcatOf(store, a + b) == ConcatOf(store, a) + ConcatOf(store, b)
  {
    if b == [] {
      assert a + b == a;
    } else {
      hide ConcatOf;
      var (u, n) := (b[..|b| - 1], b[|b| - 1]);
      ConcatOfSplit(store, a, u);
      ConcatOfMore(store, a + u, n);
      ConcatOfMore(store, u, n);
      assert b == u + [n] && a + b == (a + u) + [n];
    }
  }

  /** Two stores that hold the same under each name, in order, assemble the same bytes. */
  lemma {:induction false} ConcatOfSame(s: map<string, Bytes>, names: seq<string>, s': map<string, Bytes>,
                                        names': seq<string>)
    requires |names| == |names'|
    requires forall i | 0 <= i < |names| :: names[i] in s && names'[i] in s' && s[names[i]] == s'[names'[i]]
    ensures ConcatOf(s, names) == ConcatOf(s', names')
  {
    if names != [] {
      ConcatOfSame(s, names[..|names| - 1], s', names'[..|names| - 1]);
    }
  }

  lemma {:induction false} ConcatIsFlatten(store: map<string, Bytes>, names: seq<string>, bodies: seq<Bytes>)
    requires |names| == |bodies| && forall i | 0 <= i < |names| :: names[i] in store && store[names[i]] == bodies[i]
    ensures ConcatOf(store, names) == Flatten(bodies)
  {
    if names != [] {
      var (n, b) := (names[|names| - 1], bodies[|bodies| - 1]);
      ConcatIsFlatten(store, names[..|names| - 1], bodies[..|bodies| - 1]);
      FlattenMore(bodies[..|bodies| - 1], b);
      assert bodies == bodies[..|bodies| - 1] + [b];
    }
  }
}
