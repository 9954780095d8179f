/**
 The quoted key list of tools/kvmem-server-options.h: fields separated by commas, optionally in
 quotes with inner quotes doubled, as section 2 of RFC 4180 has them. Unlike there, empty fields
 are dropped and a quote inside an unquoted field stands for itself.
 */
module KeyList {

  datatype Result = Added | BadCharacter | UnclosedQuote | NoKey

  predicate ValidKey(key: string) { |key| > 0 && forall i :: 0 <= i < |key| ==> 33 as char <= key[i] <= 126 as char }

  /* ---------- What a value means ---------- */

  // The fields still to come, the first of which has begun with field, and whether a quote is left open.
  function Scan(s: string, field: string, quoted: bool): (r: (seq<string>, bool))
    ensures |r.0| > 0
    decreases |s|
  {
    if |s| == 0 then ([field], quoted)
    else if s[0] == '\"' then
      if quoted && |s| > 1 && s[1] == '\"' then Scan(s[2..], field + ['\"'], quoted)
      else if quoted || |field| == 0 then Scan(s[1..], field, !quoted)
      else Scan(s[1..], field + ['\"'], quoted)
    else if s[0] == ',' && !quoted then
      var rest := Scan(s[1..], [], false);
      ([field] + rest.0, rest.1)
    else Scan(s[1..], field + [s[0]], quoted)
  }

  function Fields(value: string): seq<string> { Scan(value, [], false).0 }

  predicate Unclosed(value: string) { Scan(value, [], false).1 }

  function NonEmpty(fields: seq<string>): seq<string> {
    if fields == [] then []
    else NonEmpty(fields[..|fields| - 1]) + (if |fields[|fields| - 1]| > 0 then [fields[|fields| - 1]] else [])
  }

  predicate AllValid(fields: seq<string>) { forall i :: 0 <= i < |fields| ==> fields[i] == [] || ValidKey(fields[i]) }

  /* ---------- Printing ---------- */

  function Doubled(key: string): string {
    if key == [] then [] else (if key[0] == '\"' then ['\"', '\"'] else [key[0]]) + Doubled(key[1..])
  }

  function Quote(key: string): string { ['\"'] + Doubled(key) + ['\"'] }

  function Print(keys: seq<string>): string
    requires |keys| > 0
  {
    if |keys| == 1 then Quote(keys[0]) else Quote(keys[0]) + [','] + Print(keys[1..])
  }

  // Inside quotes the doubled key adds the key, and the quote after it closes.
  lemma {:induction false} ScanQuoted(key: string, tail: string, field: string)
    requires |tail| == 0 || tail[0] == ','
    ensures Scan(Doubled(key) + ['\"'] + tail, field, true) == Scan(tail, field + key, false)
    decreases |key|
  {
    var s := Doubled(key) + ['\"'] + tail;
    if key == [] {
      assert s == ['\"'] + tail && s[1..] == tail && field + key == field;
    } else {
      var rest := Doubled(key[1..]) + ['\"'] + tail;
      ScanQuoted(key[1..], tail, field + [key[0]]);
      assert field + [key[0]] + key[1..] == field + key;
      if key[0] == '\"' {
        assert s == ['\"', '\"'] + rest && s[2..] == rest;
      } else {
        assert s == [key[0]] + rest && s[1..] == rest;
      }
    }
  }

  /** Printing keys and reading them back gives the same list. */
  lemma {:induction false} PrintRoundTrip(keys: seq<string>)
    requires |keys| > 0
    ensures Fields(Print(keys)) == keys && !Unclosed(Print(keys))
    decreases |keys|
  {
    var s := Print(keys);
    var tail := if |keys| == 1 then [] else [','] + Print(keys[1..]);
    assert s == ['\"'] + (Doubled(keys[0]) + ['\"'] + tail);
    assert s[1..] == Doubled(keys[0]) + ['\"'] + tail;
    ScanQuoted(keys[0], tail, []);
    assert [] + keys[0] == keys[0];
    if |keys| == 1 {
      assert keys == [keys[0]];
    } else {
      PrintRoundTrip(keys[1..]);
      assert tail[1..] == Print(keys[1..]);
      assert keys == [keys[0]] + keys[1..];
    }
  }

  /** A quote inside an unquoted field stands for itself. */
  lemma {:induction false} UnquotedIsLiteral(s: string, field: string)
    requires |field| > 0 && ',' !in s
    ensures Scan(s, field, false) == ([field + s], false)
    decreases |s|
  {
    if |s| == 0 {
      assert field + s == field;
    } else {
      UnquotedIsLiteral(s[1..], field + [s[0]]);
      assert field + [s[0]] + s[1..] == field + s;
    }
  }

  lemma {:induction false} NonEmptyOfValid(keys: seq<string>)
    requires forall i :: 0 <= i < |keys| ==> ValidKey(keys[i])
    ensures NonEmpty(keys) == keys && AllValid(keys)
  {
    if keys != [] {
      NonEmptyOfValid(keys[..|keys| - 1]);
      assert keys == keys[..|keys| - 1] + [keys[|keys| - 1]];
    }
  }

  /* ---------- The options ---------- */

  class Options {
    var keys: seq<string>

    constructor ()
      ensures keys == []
    {
      keys := [];
    }

    /** add_key(). An empty key is refused, and so is one with a character that is not printable or is a space. */
    method AddKey(key: string) returns (ok: bool)
      modifies this
      ensures ok <==> ValidKey(key)
      ensures ok <==> |key| > 0 && forall i :: 0 <= i < |key| ==> key[i] > ' ' && key[i] <= '~'
      ensures keys == if ok then old(keys) + [key] else old(keys)
    {
      if key == [] { return false; }
      for i := 0 to |key|
        invariant forall j :: 0 <= j < i ==> 33 as char <= key[j] <= 126 as char
        invariant keys == old(keys)
      {
        if key[i] < 33 as char || key[i] > 126 as char { return false; }
      }
      keys := keys + [key];
      ok := true;
    }

    /** add_keys(). Keys that precede an error stay. */
    method AddKeys(value: string) returns (r: Result)
      modifies this
      ensures var fields := Fields(value); var open := Unclosed(value); var whole := fields[..|fields| - 1];
              && (r.BadCharacter? <==> !AllValid(if open then whole else fields))
              && (r.UnclosedQuote? <==> open && AllValid(whole))
              && (r.NoKey? <==> !open && AllValid(fields) && NonEmpty(fields) == [])
              && (r.Added? ==> keys == old(keys) + NonEmpty(fields))
              && (r.UnclosedQuote? ==> keys == old(keys) + NonEmpty(whole))
              && (r.NoKey? ==> keys == old(keys))
              && (r.BadCharacter? ==>
                    exists n ::
                      0 <= n < |fields| && AllValid(fields[..n]) && !AllValid([fields[n]]) &&
                      keys == old(keys) + NonEmpty(fields[..n]))
    {
      hide NonEmpty, AllValid, ValidKey, Fields, Unclosed, Read;
      var count := |keys|;
      var field, quoted, i := [], false, 0;
      ghost var done := [];
      NothingYet();
      NothingRead(value);
      while i < |value|
        invariant i <= |value| && keys == old(keys) + NonEmpty(done) && AllValid(done)
        invariant Read(value, done, i, field, quoted)
      {
        var c := value[i];
        ReadMore(value, done, i, field, quoted);
        if c == '\"' {
          if quoted && i + 1 < |value| && value[i + 1] == '\"' {
            field := field + ['\"'];
            i := i + 1;
          } else if quoted || |field| == 0 {
            quoted := !quoted;
          } else {
            field := field + [c];
          }
        } else if c == ',' && !quoted {
          if |field| > 0 {
            var ok := AddKey(field);
            if !ok {
              BadFound(value, done, i, field);
              return BadCharacter;
            }
          }
          OneField(done, field);
          done, field := done + [field], [];
        } else {
          field := field + [c];
        }
        i := i + 1;
      }
      AllRead(value, done, field, quoted);
      if quoted { return UnclosedQuote; }
      if |field| > 0 {
        var ok := AddKey(field);
        if !ok {
          BadLast(value, done, field);
          return BadCharacter;
        }
      }
      OneField(done, field);
      r := if |keys| == count then NoKey else Added;
    }

    /** Adding a printed list appends exactly that list. */
    method AddPrinted(list: seq<string>) returns (r: Result)
      requires |list| > 0 && forall i :: 0 <= i < |list| ==> ValidKey(list[i])
      modifies this
      ensures r.Added? && keys == old(keys) + list
    {
      PrintRoundTrip(list);
      NonEmptyOfValid(list);
      r := AddKeys(Print(list));
    }
  }

  // The fields before i are done, and field is what has been read of the next one.
  ghost predicate Read(value: string, done: seq<string>, i: nat, field: string, quoted: bool) {
    && i <= |value|
    && var rest := Scan(value[i..], field, quoted);
    Scan(value, [], false) == (done + rest.0, rest.1)
  }

  lemma NothingRead(value: string)
    ensures Read(value, [], 0, [], false)
  {
    hide Scan;
    assert value[0..] == value && [] + Scan(value, [], false).0 == Scan(value, [], false).0;
  }

  // One turn of the loop reads one character, or a doubled quote.
  lemma ReadMore(value: string, done: seq<string>, i: nat, field: string, quoted: bool)
    requires i < |value| && Read(value, done, i, field, quoted)
    ensures var c := value[i];
            if c == '\"' then
              if quoted && i + 1 < |value| && value[i + 1] == c then Read(value, done, i + 2, field + [c], quoted)
              else if quoted || |field| == 0 then Read(value, done, i + 1, field, !quoted)
              else Read(value, done, i + 1, field + [c], quoted)
            else if c == ',' && !quoted then Read(value, done + [field], i + 1, [], false)
            else Read(value, done, i + 1, field + [c], quoted)
  {
    ScanStep(value, i, field, quoted);
    hide Scan;
    Assoc(done, [field], Scan(value[i + 1..], [], false).0);
  }

  lemma ScanStep(value: string, i: nat, field: string, quoted: bool)
    requires i < |value|
    ensures Scan(value[i..], field, quoted) ==
            var c := value[i];
            if c == '\"' then
              if quoted && i + 1 < |value| && value[i + 1] == c then Scan(value[i + 2..], field + [c], quoted)
              else if quoted || |field| == 0 then Scan(value[i + 1..], field, !quoted)
              else Scan(value[i + 1..], field + [c], quoted)
            else if c == ',' && !quoted then
              var rest := Scan(value[i + 1..], [], false);
              ([field] + rest.0, rest.1)
            else Scan(value[i + 1..], field + [c], quoted)
  {
    var s := value[i..];
    assert s[1..] == value[i + 1..] && (|s| > 1 ==> s[2..] == value[i + 2..]);
  }

  lemma Assoc(a: seq<string>, b: seq<string>, c: seq<string>)
    ensures a + (b + c) == a + b + c
  {
  }

  lemma AllRead(value: string, done: seq<string>, field: string, quoted: bool)
    requires Read(value, done, |value|, field, quoted)
    ensures var fields := Fields(value); fields == done + [field] && fields[..|fields| - 1] == done
    ensures Unclosed(value) == quoted
  {
    assert value[|value|..] == [];
  }

  // A field with a bad character, before a comma and at the end.
  lemma BadFound(value: string, done: seq<string>, i: nat, field: string)
    requires i < |value| && value[i] == ',' && Read(value, done, i, field, false)
    requires AllValid(done) && |field| > 0 && !ValidKey(field)
    ensures var fields := Fields(value);
            && |done| < |fields| && fields[..|done|] == done && fields[|done|] == field && !AllValid([field])
            && !AllValid(fields) && !AllValid(fields[..|fields| - 1])
  {
    ScanStep(value, i, field, false);
    hide Scan;
    FirstBad(done, field, Scan(value[i + 1..], [], false).0);
  }

  lemma BadLast(value: string, done: seq<string>, field: string)
    requires Read(value, done, |value|, field, false) && AllValid(done) && |field| > 0 && !ValidKey(field)
    ensures var fields := Fields(value);
            && |done| < |fields| && fields[..|done|] == done && fields[|done|] == field && !AllValid([field])
            && !AllValid(fields)
  {
    AllRead(value, done, field, false);
    hide Scan, Fields;
    FirstBad(done, field, []);
    assert [field] + [] == [field];
  }

  lemma NothingYet()
    ensures NonEmpty([]) == [] && AllValid([])
  {
  }

  lemma OneField(done: seq<string>, field: string)
    ensures NonEmpty(done + [field]) == NonEmpty(done) + (if |field| > 0 then [field] else [])
    ensures AllValid(done + [field]) <==> AllValid(done) && (field == [] || ValidKey(field))
  {
    assert (done + [field])[..|done|] == done;
    assert (done + [field])[|done|] == field;
    if AllValid(done + [field]) { assert forall i :: 0 <= i < |done| ==> done[i] == (done + [field])[i]; }
  }

  lemma FirstBad(done: seq<string>, field: string, rest: seq<string>)
    requires AllValid(done) && |field| > 0 && !ValidKey(field)
    ensures var all := done + ([field] + rest);
            all[..|done|] == done && all[|done|] == field && !AllValid(all) && !AllValid([field])
    ensures rest != [] ==> !AllValid((done + ([field] + rest))[..|done + ([field] + rest)| - 1])
  {
    var all := done + ([field] + rest);
    assert all[|done|] == field && [field][0] == field;
    if rest != [] { assert all[..|all| - 1][|done|] == field; }
  }
}
