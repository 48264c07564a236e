/** What the store's theorems ask of their caller can be met: a codec with the round trip, and a
    manifest and a wave that may be committed with it. */
module BaselineExample {
  import opened Text
  import opened BaselinePhase
  import opened BaselineStore
  import opened BaselineCommits

  // A prefix-free spelling of lists of texts.

  function Quoted(s: string): string { if s == "" then "." else "x" + [s[0]] + Quoted(s[1..]) }

  function Flat(fields: seq<string>): string {
    if fields == [] then "" else Quoted(fields[0]) + Flat(fields[1..])
  }

  lemma {:induction false} QuotedIsPrefixFree(a: string, b: string, r: string, t: string)
    requires Quoted(a) + r == Quoted(b) + t
    ensures a == b && r == t
  {
    var x, y := Quoted(a) + r, Quoted(b) + t;
    assert x[0] == if a == "" then '.' else 'x';
    assert y[0] == if b == "" then '.' else 'x';
    if a == "" {
      assert x[1..] == r && y[1..] == t;
    } else {
      assert x[1] == a[0] && y[1] == b[0];
      assert x[2..] == Quoted(a[1..]) + r && y[2..] == Quoted(b[1..]) + t;
      QuotedIsPrefixFree(a[1..], b[1..], r, t);
      assert a == [a[0]] + a[1..] && b == [b[0]] + b[1..];
    }
  }

  lemma {:induction false} FlatIsInjective(f: seq<string>, g: seq<string>)
    requires Flat(f) == Flat(g)
    ensures f == g
  {
    if f != [] && g != [] {
      QuotedIsPrefixFree(f[0], g[0], Flat(f[1..]), Flat(g[1..]));
      FlatIsInjective(f[1..], g[1..]);
      assert f == [f[0]] + f[1..] && g == [g[0]] + g[1..];
    }
  }

  function IntText(i: int): string { if i < 0 then "-" + Decimal(-i) else Decimal(i) }

  lemma IntTextIsInjective(i: int, j: int)
    requires IntText(i) == IntText(j)
    ensures i == j
  {
    DecimalRoundTrip(if i < 0 then -i else i);
    DecimalRoundTrip(if j < 0 then -j else j);
    assert i < 0 ==> IntText(i)[0] == '-' && IntText(i)[1..] == Decimal(-i);
    assert j < 0 ==> IntText(j)[0] == '-' && IntText(j)[1..] == Decimal(-j);
  }

  function ManifestFields(m: Manifest): seq<string> {
    [m.generation, m.workload, m.concurrencyMode, IntText(m.schedule.childrenPerWave), IntText(m.schedule.waves),
     IntText(m.schedule.attemptCount), m.scheduleDigest]
  }

  function AttemptFields(a: BoundAttempt): seq<string> {
    [IntText(a.slot.ordinal), IntText(a.slot.wave), IntText(a.slot.position), a.binding, a.evidence]
  }

  function AllAttemptFields(attempts: seq<BoundAttempt>): seq<string> {
    if attempts == [] then [] else AttemptFields(attempts[0]) + AllAttemptFields(attempts[1..])
  }

  function EnvelopeFields(e: Envelope): seq<string> {
    [e.generation, e.workload, e.scheduleDigest, IntText(e.wave), IntText(e.childCount)] + AllAttemptFields(e.attempts)
  }

  function ManifestLine(m: Manifest): string { Flat(ManifestFields(m)) }

  function WaveLine(e: Envelope): string { Flat(EnvelopeFields(e)) }

  lemma ManifestLineIsInjective(m: Manifest, n: Manifest)
    requires ManifestLine(m) == ManifestLine(n)
    ensures m == n
  {
    hide Flat, IntText;
    var f, g := ManifestFields(m), ManifestFields(n);
    FlatIsInjective(f, g);
    assert f[0] == g[0] && f[1] == g[1] && f[2] == g[2] && f[3] == g[3] && f[4] == g[4] && f[5] == g[5] && f[6] == g[6];
    IntTextIsInjective(m.schedule.childrenPerWave, n.schedule.childrenPerWave);
    IntTextIsInjective(m.schedule.waves, n.schedule.waves);
    IntTextIsInjective(m.schedule.attemptCount, n.schedule.attemptCount);
  }

  lemma AttemptFieldsAreInjective(a: BoundAttempt, b: BoundAttempt)
    requires AttemptFields(a) == AttemptFields(b)
    ensures a == b
  {
    hide IntText;
    var f, g := AttemptFields(a), AttemptFields(b);
    assert f[0] == g[0] && f[1] == g[1] && f[2] == g[2] && f[3] == g[3] && f[4] == g[4];
    IntTextIsInjective(a.slot.ordinal, b.slot.ordinal);
    IntTextIsInjective(a.slot.wave, b.slot.wave);
    IntTextIsInjective(a.slot.position, b.slot.position);
  }

  lemma {:induction false} AllAttemptFieldsAreInjective(a: seq<BoundAttempt>, b: seq<BoundAttempt>)
    requires AllAttemptFields(a) == AllAttemptFields(b)
    ensures a == b
  {
    hide IntText, AttemptFields;
    FiveFields(a);
    FiveFields(b);
    if a != [] && b != [] {
      var f, g := AllAttemptFields(a), AllAttemptFields(b);
      assert f[..5] == AttemptFields(a[0]) && f[5..] == AllAttemptFields(a[1..]);
      assert g[..5] == AttemptFields(b[0]) && g[5..] == AllAttemptFields(b[1..]);
      AttemptFieldsAreInjective(a[0], b[0]);
      AllAttemptFieldsAreInjective(a[1..], b[1..]);
      assert a == [a[0]] + a[1..] && b == [b[0]] + b[1..];
    }
  }

  lemma FiveFields(a: seq<BoundAttempt>)
    ensures a != [] ==> |AttemptFields(a[0])| == 5
  {
  }

  lemma WaveLineIsInjective(d: Envelope, e: Envelope)
    requires WaveLine(d) == WaveLine(e)
    ensures d == e
  {
    hide Flat, IntText, AllAttemptFields;
    var f, g := EnvelopeFields(d), EnvelopeFields(e);
    FlatIsInjective(f, g);
    assert f[0] == g[0] && f[1] == g[1] && f[2] == g[2] && f[3] == g[3] && f[4] == g[4];
    assert f[5..] == AllAttemptFields(d.attempts) && g[5..] == AllAttemptFields(e.attempts);
    IntTextIsInjective(d.wave, e.wave);
    IntTextIsInjective(d.childCount, e.childCount);
    AllAttemptFieldsAreInjective(d.attempts, e.attempts);
  }

  ghost function ReadManifest(s: string): Option<Manifest> {
    if exists m :: ManifestLine(m) == s then
      var m :| ManifestLine(m) == s;
      Some(m)
    else None
  }

  ghost function ReadWave(s: string): Option<Envelope> {
    if exists e :: WaveLine(e) == s then
      var e :| WaveLine(e) == s;
      Some(e)
    else None
  }

  ghost function ExampleCodec(): Codec {
    Codec(m => ManifestLine(m), s => ReadManifest(s), e => WaveLine(e), s => ReadWave(s))
  }

  /** The round trip that the store's theorems ask of a codec is that of this one. */
  lemma CodecIsLawful()
    ensures Lawful(ExampleCodec())
  {
    forall m: Manifest ensures ReadManifest(ManifestLine(m)) == Some(m) && ManifestLine(m) != "" {
      forall n | ManifestLine(n) == ManifestLine(m) ensures n == m { ManifestLineIsInjective(n, m); }
      assert Flat(ManifestFields(m)) != "" by { assert |Quoted(m.generation)| > 0; }
    }
    forall e: Envelope ensures ReadWave(WaveLine(e)) == Some(e) && WaveLine(e) != "" {
      forall d | WaveLine(d) == WaveLine(e) ensures d == e { WaveLineIsInjective(d, e); }
      assert EnvelopeFields(e)[0] == e.generation;
      assert Flat(EnvelopeFields(e)) != "" by { assert |Quoted(e.generation)| > 0; }
    }
  }

  // A phase of one wave with one child.

  function ExampleRules(): Rules {
    Rules(e => true, e => true, e => e, "workload", s => "digest")
  }

  ghost function ExampleContext(): Context { Context(ExampleRules(), ExampleCodec()) }

  const SCHEDULE := Schedule(1, 1, 1)

  const GENERATION := "0123456789abcdef0123456789abcdef"

  function ExampleManifest(): Manifest { Manifest(GENERATION, "workload", CONCURRENCY_MODE, SCHEDULE, "digest") }

  function ExampleWave(): Envelope {
    Envelope(GENERATION, "workload", "digest", 1, 1, [BoundAttempt(Slot(1, 1, 1), "evidence", "evidence")])
  }

  lemma {:induction false} QuotedLength(s: string)
    ensures |Quoted(s)| == 2 * |s| + 1
  {
    if s != "" { QuotedLength(s[1..]); }
  }

  lemma {:induction false} FlatLength(fields: seq<string>, bound: nat)
    requires forall i :: 0 <= i < |fields| ==> |fields[i]| <= bound
    ensures |Flat(fields)| <= |fields| * (2 * bound + 1)
  {
    if fields != [] {
      QuotedLength(fields[0]);
      FlatLength(fields[1..], bound);
    }
  }

  lemma OneIsShort()
    ensures |IntText(1)| == 1
  {
  }

  lemma LinesAreShort()
    ensures |ManifestLine(ExampleManifest())| <= 7 * 65 && |WaveLine(ExampleWave())| <= 10 * 65
  {
    hide IntText, Flat;
    OneIsShort();
    var m, e := ExampleManifest(), ExampleWave();
    FlatLength(ManifestFields(m), 32);
    assert AllAttemptFields(e.attempts) == AttemptFields(e.attempts[0]) by { assert e.attempts[1..] == []; }
    FlatLength(EnvelopeFields(e), 32);
  }

  lemma GenerationIsHex()
    ensures IsGeneration(GENERATION)
  {
  }

  /** An initializer may commit the manifest, and then a committer its wave. */
  lemma ExampleIsAllowed()
    ensures Lawful(ExampleContext().codec) && InitAllowed(ExampleContext(), ExampleManifest())
    ensures WaveAllowed(ExampleContext(), Store(ExampleManifest(), []), ExampleWave())
  {
    hide Lawful, ManifestLine, WaveLine, GENERATION, IsGeneration;
    CodecIsLawful();
    LinesAreShort();
    GenerationIsHex();
    var m, e := ExampleManifest(), ExampleWave();
    assert ValidAttempt(ExampleRules(), e.attempts[0], ExpectedSlot(SCHEDULE, 1, 1));
  }
}
