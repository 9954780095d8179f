/**
 The names of chunk files: how tools/kvmem-session-files.h writes them and which ones the
 cleanup of tools/kvmem-session-cache-dir.h recognises.
 */
module ChunkNames {

  predicate Digit(c: char) { '0' <= c <= '9' }

  predicate Digits(s: string) { |s| > 0 && forall i :: 0 <= i < |s| ==> Digit(s[i]) }

  predicate Extension(s: string) { s == ".kv" || s == ".tmp" }

  // The first position of c from i on, or the length.
  function Find(s: string, c: char, i: nat): (k: nat)
    requires i <= |s|
    ensures i <= k <= |s| && (k < |s| ==> s[k] == c) && forall j :: i <= j < k ==> s[j] != c
    decreases |s| - i
  {
    if i == |s| || s[i] == c then i else Find(s, c, i + 1)
  }

  // chunk_name() as the source tests it.
  predicate IsChunkName(name: string) {
    var dash, dot := Find(name, '-', 0), Find(name, '.', 0);
    && dash < |name| && dot < |name| && dash != 0 && dot > dash + 1
    && Extension(name[dot..])
    && forall i :: 0 <= i < dot && i != dash ==> Digit(name[i])
  }

  method ChunkName(name: string) returns (ok: bool)
    ensures ok == IsChunkName(name)
  {
    var dash, dot := Find(name, '-', 0), Find(name, '.', 0);
    if dash == |name| || dot == |name| || dash == 0 || dot <= dash + 1 { return false; }
    if name[dot..] != ".kv" && name[dot..] != ".tmp" { return false; }
    for i := 0 to dot
      invariant forall j :: 0 <= j < i && j != dash ==> Digit(name[j])
    {
      if i != dash && !Digit(name[i]) { return false; }
    }
    ok := true;
  }

  ghost predicate TwoNumbers(name: string) {
    exists a, b, ext :: Digits(a) && Digits(b) && Extension(ext) && name == a + "-" + b + ext
  }

  /** Recognised names are exactly two runs of digits joined by a dash, with one of the two extensions. */
  lemma ChunkNameIsTwoNumbers(name: string)
    ensures IsChunkName(name) <==> TwoNumbers(name)
  {
    if IsChunkName(name) {
      var dash, dot := Find(name, '-', 0), Find(name, '.', 0);
      var a, b, ext := name[..dash], name[dash + 1..dot], name[dot..];
      assert name == a + "-" + b + ext;
      forall i | 0 <= i < |a| ensures Digit(a[i]) { assert a[i] == name[i]; }
      forall i | 0 <= i < |b| ensures Digit(b[i]) { assert b[i] == name[dash + 1 + i]; }
      assert Digits(a) && Digits(b);
    }
    if TwoNumbers(name) {
      var a, b, ext :| Digits(a) && Digits(b) && Extension(ext) && name == a + "-" + b + ext;
      NumbersAreFound(a, b, ext);
    }
  }

  lemma NumbersAreFound(a: string, b: string, ext: string)
    requires Digits(a) && Digits(b) && Extension(ext)
    ensures IsChunkName(a + "-" + b + ext)
  {
    var name := a + "-" + b + ext;
    var dash, dot := |a|, |a| + 1 + |b|;
    assert name[dash] == '-' && name[dot] == '.';
    assert forall i :: 0 <= i < dot && i != dash ==> Digit(name[i]);
    assert Find(name, '-', 0) == dash;
    assert Find(name, '.', 0) == dot;
    assert name[dot..] == ext;
  }

  // std::to_string
  function Decimal(n: nat): string {
    var last := ['0' + (n % 10) as char];
    if n < 10 then last else Decimal(n / 10) + last
  }

  function Signed(id: int): string { if id < 0 then "-" + Decimal(-id) else Decimal(id) }

  function FileName(id: int, chunk: nat, ready: bool): string {
    Signed(id) + "-" + Decimal(chunk) + (if ready then ".kv" else ".tmp")
  }

  lemma {:induction false} DecimalIsDigits(n: nat)
    ensures Digits(Decimal(n))
  {
    if n >= 10 { DecimalIsDigits(n / 10); }
  }

  /** Cleanup recognises a written name exactly when the conversation id is not negative. */
  lemma WrittenNamesAreRecognised(id: int, chunk: nat, ready: bool)
    ensures IsChunkName(FileName(id, chunk, ready)) <==> id >= 0
  {
    DecimalIsDigits(chunk);
    if id >= 0 {
      DecimalIsDigits(id);
      NumbersAreFound(Decimal(id), Decimal(chunk), if ready then ".kv" else ".tmp");
    } else {
      assert FileName(id, chunk, ready)[0] == '-';
    }
  }

  function Value(s: string): int {
    if s == "" then 0 else Value(s[..|s| - 1]) * 10 + (s[|s| - 1] as int - '0' as int)
  }

  lemma {:induction false} DecimalRoundTrip(n: nat)
    ensures Value(Decimal(n)) == n
  {
    var last := ['0' + (n % 10) as char];
    assert last[..0] == "" && Value(last) == n % 10;
    if n >= 10 {
      DecimalRoundTrip(n / 10);
      assert (Decimal(n / 10) + last)[..|Decimal(n / 10)|] == Decimal(n / 10);
    }
  }

  /** No two chunks of nonnegative ids share a file, ready or not. */
  lemma NamesAreDistinct(id: nat, chunk: nat, ready: bool, id': nat, chunk': nat, ready': bool)
    requires FileName(id, chunk, ready) == FileName(id', chunk', ready')
    ensures id == id' && chunk == chunk' && ready == ready'
  {
    NameParts(id, chunk, ready);
    NameParts(id', chunk', ready');
  }

  // A name gives back the numbers it was made from.
  lemma NameParts(id: nat, chunk: nat, ready: bool)
    ensures var name := FileName(id, chunk, ready); var dash, dot := Find(name, '-', 0), Find(name, '.', 0);
            dash < dot < |name| && Value(name[..dash]) == id && Value(name[dash + 1..dot]) == chunk &&
            (name[dot..] == ".kv" <==> ready)
  {
    DecimalIsDigits(id);
    DecimalIsDigits(chunk);
    DecimalRoundTrip(id);
    DecimalRoundTrip(chunk);
    hide Decimal, Value;
    var a, b, ext := Decimal(id), Decimal(chunk), if ready then ".kv" else ".tmp";
    var name := FileName(id, chunk, ready);
    var dash, dot := |a|, |a| + 1 + |b|;
    assert name == a + "-" + b + ext;
    assert name[dash] == '-' && name[dot] == '.';
    assert forall i :: 0 <= i < dot && i != dash ==> Digit(name[i]);
    assert Find(name, '-', 0) == dash && Find(name, '.', 0) == dot;
    assert name[..dash] == a && name[dash + 1..dot] == b && name[dot..] == ext;
  }
}
