/** OCI references: the grammar the Python side accepts, its unique decomposition, and the guard
    the Go side applies to the same text. */
module References {
  import opened QueueTypes
  import opened TextOrder

  // ----- the grammar -----------------------------------------------------------------------

  predicate IsDigitChar(c: char) { '0' <= c <= '9' }

  predicate IsLowerAlnum(c: char) { 'a' <= c <= 'z' || IsDigitChar(c) }

  predicate IsAlnum(c: char) { IsLowerAlnum(c) || 'A' <= c <= 'Z' }

  /** Letters, digits, dots and dashes, with a letter or digit at both ends ("localhost" is one). */
  predicate IsHost(s: string) {
    && s != [] && IsAlnum(s[0]) && IsAlnum(s[|s| - 1])
    && forall c | c in s :: IsAlnum(c) || c == '.' || c == '-'
  }

  predicate IsPort(s: string) {
    1 <= |s| <= 5 && forall c | c in s :: IsDigitChar(c)
  }

  /** A host, optionally with a port. */
  predicate IsRegistry(s: string) {
    var (host, port) := Cut(s, ':');
    IsHost(host) && (port.Some? ==> IsPort(port.value))
  }

  predicate IsSeparator(c: char) { c == '.' || c == '_' || c == '-' || c == '/' }

  /** Runs of lower-case letters and digits joined by single separators. */
  predicate IsRepository(s: string) {
    && s != [] && IsLowerAlnum(s[0]) && IsLowerAlnum(s[|s| - 1])
    && (forall c | c in s :: IsLowerAlnum(c) || IsSeparator(c))
    && forall k | 0 < k < |s| :: IsSeparator(s[k]) ==> IsLowerAlnum(s[k - 1])
  }

  predicate IsTag(s: string) {
    && 1 <= |s| <= 128
    && (IsAlnum(s[0]) || s[0] == '_')
    && forall c | c in s :: IsAlnum(c) || c == '_' || c == '.' || c == '-'
  }

  predicate IsDigest(s: string) {
    && |s| == 71 && s[..7] == "sha256:"
    && forall k | 7 <= k < |s| :: IsDigitChar(s[k]) || 'a' <= s[k] <= 'f'
  }

  datatype Reference = Reference(registry: string, repository: string, tag: Option<string>, digest: Option<string>) {
    predicate WellFormed() {
      && IsRegistry(registry) && IsRepository(repository)
      && (tag.Some? ==> IsTag(tag.value))
      && (digest.Some? ==> IsDigest(digest.value))
    }

    function Base(): string {
      registry + "/" + repository
    }

    function Tagged(): string {
      if tag.Some? then Base() + ":" + tag.value else Base()
    }

    function Text(): string {
      if digest.Some? then Tagged() + "@" + digest.value else Tagged()
    }

    predicate Explicit() {
      tag.Some? || digest.Some?
    }
  }

  // ----- what the grammar says -------------------------------------------------------------

  predicate AllLowerAlnum(s: string) {
    forall k | 0 <= k < |s| :: 'a' <= s[k] <= 'z' || '0' <= s[k] <= '9'
  }

  /** Two repositories joined by a separator make a repository. */
  predicate SplitsAt(s: string, k: nat) {
    k < |s| && s[k] in {'.', '_', '-', '/'} && IsRepository(s[..k]) && IsRepository(s[k + 1..])
  }

  lemma RepositoryJoins(s: string, k: nat)
    requires SplitsAt(s, k)
    ensures IsRepository(s)
  {
    var a, b := s[..k], s[k + 1..];
    assert s == a + [s[k]] + b;
    assert s[0] == a[0] && s[|s| - 1] == b[|b| - 1];
    forall j | 0 < j < |s| && IsSeparator(s[j])
      ensures IsLowerAlnum(s[j - 1])
    {
      if j < k {
        assert s[j] == a[j] && s[j - 1] == a[j - 1];
      } else if j == k {
        assert s[j - 1] == a[|a| - 1];
      } else {
        assert s[j] == b[j - k - 1];
        if j == k + 1 {
          assert IsLowerAlnum(b[0]);
        } else {
          assert s[j - 1] == b[j - k - 2];
        }
      }
    }
  }

  lemma RepositorySplits(s: string, k: nat)
    requires IsRepository(s) && k < |s| && IsSeparator(s[k])
    ensures SplitsAt(s, k)
  {
    var a, b := s[..k], s[k + 1..];
    assert k != 0 && k != |s| - 1;
    assert a[|a| - 1] == s[k - 1];
    assert b[0] == s[k + 1] && (IsSeparator(s[k + 1]) ==> IsLowerAlnum(s[k]));
    forall c | c in a
      ensures IsLowerAlnum(c) || IsSeparator(c)
    {
      assert c in s;
    }
    forall c | c in b
      ensures IsLowerAlnum(c) || IsSeparator(c)
    {
      assert c in s;
    }
    forall j | 0 < j < |b| && IsSeparator(b[j])
      ensures IsLowerAlnum(b[j - 1])
    {
      assert b[j] == s[j + k + 1] && b[j - 1] == s[j + k];
    }
  }

  /** A repository is a run of lower-case letters and digits, or two repositories joined by one of
      the four separators. */
  lemma RepositoryIff(s: string)
    ensures IsRepository(s) <==> (s != "" && AllLowerAlnum(s)) || exists k: nat :: SplitsAt(s, k)
  {
    if IsRepository(s) && !AllLowerAlnum(s) {
      var k: nat :| k < |s| && !('a' <= s[k] <= 'z' || '0' <= s[k] <= '9');
      assert s[k] in s;
      RepositorySplits(s, k);
    }
    if s != "" && AllLowerAlnum(s) {
      AlnumIsRepository(s);
    }
    if k: nat :| SplitsAt(s, k) {
      RepositoryJoins(s, k);
    }
  }

  lemma AlnumIsRepository(s: string)
    requires s != "" && AllLowerAlnum(s)
    ensures IsRepository(s)
  {
  }

  /** A tag has 1 to 128 characters; a digest is "sha256:" with 64 hexadecimal digits. */
  lemma TagAndDigestAre(s: string)
    ensures IsTag(s)
       <==> && s != "" && |s| <= 128 && s[0] !in {'.', '-'}
            && forall k | 0 <= k < |s| ::
                 'a' <= s[k] <= 'z' || 'A' <= s[k] <= 'Z' || '0' <= s[k] <= '9' || s[k] in {'_', '.', '-'}
    ensures IsDigest(s)
       <==> |s| == 71 && s[..7] == "sha256:" && forall k | 7 <= k < 71 :: '0' <= s[k] <= '9' || 'a' <= s[k] <= 'f'
  {
    if s != "" {
      assert s[0] in s;
    }
    assert forall k | 0 <= k < |s| :: s[k] in s;
  }

  // ----- taking a text apart ---------------------------------------------------------------

  /** The text before the first `c` and, when there is one, the text after it. */
  function Cut(s: string, c: char): (string, Option<string>) {
    if s == [] then ([], None)
    else if s[0] == c then ([], Some(s[1..]))
    else
      var (head, tail) := Cut(s[1..], c);
      ([s[0]] + head, tail)
  }

  /** The text of a cut. */
  function Joined(cut: (string, Option<string>), c: char): string {
    if cut.1.Some? then cut.0 + [c] + cut.1.value else cut.0
  }

  lemma {:induction false} CutWhole(s: string, c: char)
    ensures c !in Cut(s, c).0
    ensures s == Joined(Cut(s, c), c)
    decreases |s|
  {
    if s != [] && s[0] != c {
      CutWhole(s[1..], c);
      JoinedMore(s[0], Cut(s[1..], c), c);
      assert s == [s[0]] + s[1..];
    }
  }

  lemma JoinedMore(first: char, cut: (string, Option<string>), c: char)
    ensures Joined(([first] + cut.0, cut.1), c) == [first] + Joined(cut, c)
  {
    if cut.1.Some? {
      assert ([first] + cut.0) + [c] + cut.1.value == [first] + (cut.0 + [c] + cut.1.value);
    }
  }

  lemma {:induction false} CutAt(head: string, c: char, tail: string)
    requires c !in head
    ensures Cut(head + [c] + tail, c) == (head, Some(tail))
    ensures Cut(head, c) == (head, None)
    decreases |head|
  {
    if head == [] {
      assert head + [c] + tail == [c] + tail;
    } else {
      CutAt(head[1..], c, tail);
      assert head == [head[0]] + head[1..] && (head + [c] + tail)[0] == head[0];
      assert (head + [c] + tail)[1..] == head[1..] + [c] + tail;
    }
  }

  /** The groups of the pattern: digest after '@', registry before the first '/', tag after ':'. */
  function Decompose(v: string): Option<Reference> {
    var (named, digest) := Cut(v, '@');
    var (registry, path) := Cut(named, '/');
    if path.None? then None
    else
      var (repository, tag) := Cut(path.value, ':');
      var r := Reference(registry, repository, tag, digest);
      if r.WellFormed() then Some(r) else None
  }

  lemma RegistryChars(s: string)
    requires IsRegistry(s)
    ensures '/' !in s && '@' !in s
  {
    CutWhole(s, ':');
  }

  lemma DecomposedText(v: string)
    requires Decompose(v).Some?
    ensures Decompose(v).value.WellFormed() && Decompose(v).value.Text() == v
  {
    var named := Cut(v, '@').0;
    CutWhole(v, '@');
    CutWhole(named, '/');
    CutWhole(Cut(named, '/').1.value, ':');
    PathJoins(Decompose(v).value);
  }

  /** What follows the registry and its slash. */
  function PathOf(r: Reference): string {
    Joined((r.repository, r.tag), ':')
  }

  lemma PathJoins(r: Reference)
    ensures r.Tagged() == r.registry + ['/'] + PathOf(r)
  {
    if r.tag.Some? {
      assert r.registry + "/" + r.repository + ":" + r.tag.value == r.registry + "/" + (r.repository + ":" + r.tag.value);
    }
  }

  lemma NamedHasNoAt(r: Reference)
    requires r.WellFormed()
    ensures '@' !in r.Tagged() && '/' !in r.registry && ':' !in r.repository
  {
    RegistryChars(r.registry);
  }

  lemma CutsOf(r: Reference)
    requires r.WellFormed()
    ensures Cut(r.Text(), '@') == (r.Tagged(), r.digest)
    ensures Cut(r.Tagged(), '/') == (r.registry, Some(PathOf(r)))
    ensures Cut(PathOf(r), ':') == (r.repository, r.tag)
  {
    NamedHasNoAt(r);
    CutAt(r.Tagged(), '@', if r.digest.Some? then r.digest.value else "");
    PathJoins(r);
    CutAt(r.registry, '/', PathOf(r));
    CutAt(r.repository, ':', if r.tag.Some? then r.tag.value else "");
  }

  /** Decomposition is exact: it finds `r` in a text exactly when the text is that of a
      well-formed `r`. */
  lemma DecomposeIff(v: string, r: Reference)
    ensures Decompose(v) == Some(r) <==> r.WellFormed() && r.Text() == v
  {
    if Decompose(v).Some? {
      DecomposedText(v);
    }
    if r.WellFormed() && r.Text() == v {
      CutsOf(r);
    }
  }

  /** A text has at most one decomposition into registry, repository, tag and digest. */
  lemma UniqueDecomposition(r: Reference, q: Reference)
    requires r.WellFormed() && q.WellFormed() && r.Text() == q.Text()
    ensures r == q
  {
    DecomposeIff(r.Text(), r);
    DecomposeIff(r.Text(), q);
  }

  /** A registry without a port is a run of letters, digits, dots and dashes that neither begins
      nor ends with a dot or a dash; a port is one to five digits after a colon. */
  lemma RegistryIs(host: string, port: string)
    requires ':' !in host
    ensures IsRegistry(host)
       <==> && host != "" && host[0] !in {'.', '-'} && host[|host| - 1] !in {'.', '-'}
            && forall k | 0 <= k < |host| ::
                 'a' <= host[k] <= 'z' || 'A' <= host[k] <= 'Z' || '0' <= host[k] <= '9' || host[k] in {'.', '-'}
    ensures IsRegistry(host + ":" + port)
       <==> IsRegistry(host) && 1 <= |port| <= 5 && forall k | 0 <= k < |port| :: '0' <= port[k] <= '9'
  {
    CutAt(host, ':', port);
    assert host + [':'] + port == host + ":" + port;
    if host != "" {
      assert host[0] in host && host[|host| - 1] in host;
    }
    assert forall k | 0 <= k < |host| :: host[k] in host;
    assert forall k | 0 <= k < |port| :: port[k] in port;
  }

  // ----- the two parsers -------------------------------------------------------------------

  /** The position of the last `c`, or -1. */
  function LastIndex(s: string, c: char): (k: int)
    ensures -1 <= k < |s|
  {
    if s == [] then -1
    else if s[|s| - 1] == c then |s| - 1
    else LastIndex(s[..|s| - 1], c)
  }

  function Number(s: string): nat
    requires forall c | c in s :: IsDigitChar(c)
  {
    if s == [] then 0
    else
      assert s[|s| - 1] in s && IsDigitChar(s[|s| - 1]);
      10 * Number(s[..|s| - 1]) + (s[|s| - 1] - '0') as nat
  }

  /** The check on what stands after the registry's last ':', or on the whole registry if there
      is none: if it is all digits it must be a port number. */
  predicate PortInRange(registry: string) {
    var port := registry[LastIndex(registry, ':') + 1..];
    port != [] && (forall c | c in port :: IsDigitChar(c)) ==> 1 <= Number(port) <= 65535
  }

  /** `parse_reference`: the lower-cased registry and the repository, or nothing. */
  function ParseReference(v: string): Option<(string, string)> {
    if |v| > 512 || exists c | c in v :: c < 33 as char then None
    else
      match Decompose(v)
      case None => None
      case Some(r) => if r.Explicit() && PortInRange(r.registry) then Some((Lower(r.registry), r.repository)) else None
  }

  /** The guard of `parseExplicitReference`, applied before regclient's own parser. */
  predicate GoGuard(v: string) {
    !('@' !in v && LastIndex(v, ':') <= LastIndex(v, '/'))
  }

  lemma {:induction false} LastIndexAfter(a: string, c: char, b: string, d: char)
    requires d !in b
    ensures LastIndex(a + [c] + b, d) == if c == d then |a| else LastIndex(a, d)
    decreases |b|
  {
    var s := a + [c] + b;
    if b == [] {
      assert s[..|s| - 1] == a;
    } else {
      LastIndexAfter(a, c, b[..|b| - 1], d);
      assert s[..|s| - 1] == a + [c] + b[..|b| - 1];
      assert s[|s| - 1] == b[|b| - 1];
    }
  }

  lemma {:induction false} LastIndexWithin(a: string, c: char, b: string)
    ensures |a| <= LastIndex(a + [c] + b, c)
    decreases |b|
  {
    var s := a + [c] + b;
    if b != [] {
      LastIndexWithin(a, c, b[..|b| - 1]);
      assert s[..|s| - 1] == a + [c] + b[..|b| - 1];
    }
  }

  /** On every text of the grammar, Go's guard passes exactly the references with a tag or a digest. */
  lemma GuardIffExplicit(r: Reference)
    requires r.WellFormed()
    ensures GoGuard(r.Text()) <==> r.Explicit()
  {
    RegistryChars(r.registry);
    if r.digest.Some? {
      assert r.Text()[|r.Tagged()|] == '@';
    } else {
      assert '@' !in r.Text();
      if r.tag.Some? {
        LastIndexAfter(r.Base(), ':', r.tag.value, ':');
        LastIndexAfter(r.Base(), ':', r.tag.value, '/');
        var slash := LastIndex(r.Base(), '/');
      } else {
        LastIndexAfter(r.registry, '/', r.repository, ':');
        LastIndexWithin(r.registry, '/', r.repository);
        var colon := LastIndex(r.registry, ':');
      }
    }
  }

  predicate Printable(s: string) {
    forall c | c in s :: c >= 33 as char
  }

  lemma DigestIsPrintable(s: string)
    requires IsDigest(s)
    ensures Printable(s)
  {
    forall c | c in s
      ensures c >= 33 as char
    {
      var k :| 0 <= k < |s| && s[k] == c;
      assert k < 7 ==> s[k] == s[..7][k];
    }
  }

  lemma RegistryIsPrintable(s: string)
    requires IsRegistry(s)
    ensures Printable(s)
  {
    CutWhole(s, ':');
  }

  lemma TextIsPrintable(r: Reference)
    requires r.WellFormed()
    ensures Printable(r.Text())
  {
    RegistryIsPrintable(r.registry);
    assert Printable(r.Base());
    assert Printable(r.Tagged());
    if r.digest.Some? {
      DigestIsPrintable(r.digest.value);
    }
  }

  /** What the Python side accepts: exactly the texts of well-formed references with a tag or a
      digest, at most 512 characters long and with a port in range. */
  lemma AcceptedIff(v: string)
    ensures ParseReference(v).Some? <==>
              exists r: Reference :: r.WellFormed() && r.Text() == v && r.Explicit() && |v| <= 512 && PortInRange(r.registry)
  {
    if ParseReference(v).Some? {
      DecomposeIff(v, Decompose(v).value);
    }
    forall r: Reference | r.WellFormed() && r.Text() == v && r.Explicit() && |v| <= 512 && PortInRange(r.registry)
      ensures ParseReference(v).Some?
    {
      DecomposeIff(v, r);
      TextIsPrintable(r);
    }
  }

  /** Whatever the Python side accepts passes the Go guard; and a text of the grammar with neither
      tag nor digest (host:port/repository included) is refused by both. */
  lemma ParsersAgree(v: string)
    ensures ParseReference(v).Some? ==> GoGuard(v)
    ensures forall r: Reference :: r.WellFormed() && r.Text() == v && !r.Explicit() ==>
              ParseReference(v).None? && !GoGuard(v)
  {
    if Decompose(v).Some? {
      DecomposeIff(v, Decompose(v).value);
      GuardIffExplicit(Decompose(v).value);
    }
    forall r: Reference | r.WellFormed() && r.Text() == v && !r.Explicit()
      ensures ParseReference(v).None? && !GoGuard(v)
    {
      DecomposeIff(v, r);
      GuardIffExplicit(r);
    }
  }

  /** What is returned: the registry in lower case, and the repository as it is. */
  lemma ParsedPartsAre(r: Reference)
    requires r.WellFormed() && ParseReference(r.Text()).Some?
    ensures var (registry, repository) := ParseReference(r.Text()).value;
            && repository == r.repository && |registry| == |r.registry|
            && forall k | 0 <= k < |registry| ::
                 registry[k] as int == if 'A' <= r.registry[k] <= 'Z' then r.registry[k] as int + 32 else r.registry[k] as int
  {
    DecomposeIff(r.Text(), r);
    LowerIs(r.registry);
  }

  /** Reading decimal digits: each one is worth ten times the next. */
  lemma NumberReads(s: string, d: char)
    requires (forall c | c in s :: '0' <= c <= '9') && '0' <= d <= '9'
    ensures Number(s + [d]) == 10 * Number(s) + (d as int - 48) && Number("") == 0
  {
    assert (s + [d])[..|s|] == s;
  }

  // ----- the port check --------------------------------------------------------------------

  predicate AllDigits(s: string) {
    forall c | c in s :: IsDigitChar(c)
  }

  predicate IsPortNumber(s: string)
    requires AllDigits(s)
  {
    1 <= Number(s) <= 65535
  }

  lemma AfterLastColon(registry: string)
    requires IsRegistry(registry)
    ensures var (host, port) := Cut(registry, ':');
            registry[LastIndex(registry, ':') + 1..] == if port.Some? then port.value else host
  {
    var (host, port) := Cut(registry, ':');
    CutWhole(registry, ':');
    if port.Some? {
      LastIndexAfter(host, ':', port.value, ':');
    } else if LastIndex(registry, ':') >= 0 {
      LastIndexIsIn(registry, ':');
    }
  }

  lemma {:induction false} LastIndexIsIn(s: string, c: char)
    requires LastIndex(s, c) >= 0
    ensures c in s
    decreases |s|
  {
    if s[|s| - 1] != c {
      LastIndexIsIn(s[..|s| - 1], c);
    }
  }

  lemma PortInRangeIff(registry: string)
    requires IsRegistry(registry)
    ensures var (host, port) := Cut(registry, ':');
            !PortInRange(registry)
            <==> if port.Some? then AllDigits(port.value) && !IsPortNumber(port.value)
                 else AllDigits(host) && !IsPortNumber(host)
  {
    AfterLastColon(registry);
  }

  /** A reference of the grammar with a tag or a digest, and short enough, is refused exactly if
      its port is not in 1..65535, or it has none and its host, being all digits, is taken for a
      port and is not in that range. */
  lemma RefusedForItsPortIff(r: Reference)
    requires r.WellFormed() && r.Explicit() && |r.Text()| <= 512
    ensures var (host, port) := Cut(r.registry, ':');
            ParseReference(r.Text()).None?
            <==> if port.Some? then AllDigits(port.value) && !IsPortNumber(port.value)
                 else AllDigits(host) && !IsPortNumber(host)
  {
    DecomposeIff(r.Text(), r);
    TextIsPrintable(r);
    PortInRangeIff(r.registry);
  }

  /** An all-digit host that is no port number: a reference of the grammar that Python refuses
      and the Go guard passes. */
  lemma DigitHostIsRefused()
    ensures var r := Reference("99999", "a", Some("b"), None);
            && r.WellFormed() && r.Explicit() && r.Text() == "99999/a:b"
            && ParseReference(r.Text()).None? && GoGuard(r.Text())
  {
    var r := Reference("99999", "a", Some("b"), None);
    NinesAreTooMany();
    DigitsAreAHost(r.registry);
    NinesText();
    RefusedForItsPortIff(r);
    GuardIffExplicit(r);
  }

  lemma DigitsAreAHost(s: string)
    requires s != "" && AllDigits(s)
    ensures Cut(s, ':') == (s, None) && Reference(s, "a", Some("b"), None).WellFormed()
  {
    CutAt(s, ':', "");
    assert s[0] in s && s[|s| - 1] in s;
    assert IsHost(s) && IsRepository("a") && IsTag("b");
  }

  lemma NinesText()
    ensures Reference("99999", "a", Some("b"), None).Text() == "99999/a:b"
  {
  }

  lemma NinesAreTooMany()
    ensures AllDigits("99999") && Number("99999") == 99999
  {
    assert "99999"[..4] == "9999" && "9999"[..3] == "999" && "999"[..2] == "99" && "99"[..1] == "9" && "9"[..0] == "";
  }
}
