/** The form-key parser of POST /api/documents/upload: fields named
    `files[N][title]` and `files[N][file]` are folded into a list of entries
    indexed by N. A key takes part when it starts with "files[" and contains a
    match of the regular expression `files\[(\d+)\]\[(title|file)\]`; the
    expression is not anchored, so the first match anywhere in the key counts
    and text after it is ignored. */
module UploadForm {
  import opened Http

  /** A `File` part of the multipart body. */
  datatype FileBlob = FileBlob(name: string, mimeType: string, bytes: seq<bv8>)

  /** A parsed body value: a plain string, or a file. */
  datatype FormValue = Text(text: string) | Upload(file: FileBlob)

  /** One key of the parsed body, in the order `for (const key in body)` visits it. */
  datatype Field = Field(key: string, value: FormValue)

  datatype Prop = TitleProp | FileProp

  /** What a matching key says: the slot index and the property to set. */
  datatype KeyMatch = KeyMatch(index: nat, prop: Prop)

  /** `{ title, file }`, either of which may never have been assigned. */
  datatype Entry = Entry(title: Option<FormValue>, file: Option<FormValue>)

  const Prefix := "files["

  /** The largest index that is an array index in JavaScript (2^32 - 2).
      `files[n] = ...` with a larger n creates a plain property, which changes
      neither `files.length` nor what `for...of` visits. */
  const MaxArrayIndex: nat := 0xFFFF_FFFE

  predicate StartsWith(s: string, p: string) {
    |p| <= |s| && s[..|p|] == p
  }

  predicate IsDigit(c: char) {
    '0' <= c <= '9'
  }

  /** The length of the longest run of digits in `s` starting at `i`: what
      the greedy `\d+` consumes. */
  function DigitRun(s: string, i: nat): (n: nat)
    requires i <= |s|
    ensures i + n <= |s|
    ensures forall k :: i <= k < i + n ==> IsDigit(s[k])
    ensures i + n == |s| || !IsDigit(s[i + n])
    decreases |s| - i
  {
    if i < |s| && IsDigit(s[i]) then 1 + DigitRun(s, i + 1) else 0
  }

  predicate AllDigits(ds: string) {
    forall k :: 0 <= k < |ds| ==> IsDigit(ds[k])
  }

  /** `parseInt(ds, 10)` for a string of decimal digits. */
  function DecimalValue(ds: string): nat
    requires AllDigits(ds)
  {
    if ds == [] then 0
    else 10 * DecimalValue(ds[..|ds| - 1]) + (ds[|ds| - 1] as int - '0' as int)
  }

  function PropName(p: Prop): string {
    match p
    case TitleProp => "title"
    case FileProp => "file"
  }

  /** The regular expression matched at the start of `t`. */
  function MatchHere(t: string): Option<KeyMatch> {
    if !StartsWith(t, Prefix) then None
    else
      var n := DigitRun(t, |Prefix|);
      var e := |Prefix| + n;
      if n == 0 || !StartsWith(t[e..], "][") then None
      else
        var index := DecimalValue(t[|Prefix|..e]);
        if StartsWith(t[e + 2..], "title]") then Some(KeyMatch(index, TitleProp))
        else if StartsWith(t[e + 2..], "file]") then Some(KeyMatch(index, FileProp))
        else None
  }

  /** The regular expression matched at position `p` of `key`. */
  function MatchAt(key: string, p: nat): Option<KeyMatch>
    requires p <= |key|
  {
    MatchHere(key[p..])
  }

  /** Whether the expression matches at each position of `key`, end included. */
  function Matches(key: string): seq<Option<KeyMatch>> {
    seq(|key| + 1, p requires 0 <= p <= |key| => MatchAt(key, p))
  }

  /** The first present value of `s` at or after `from`. */
  function FirstSome<T>(s: seq<Option<T>>, from: nat): Option<T>
    requires from <= |s|
    decreases |s| - from
  {
    if from == |s| then None
    else if s[from].Some? then s[from]
    else FirstSome(s, from + 1)
  }

  /** `key.match(...)`: the leftmost match at or after `from`. */
  function FindMatch(key: string, from: nat): Option<KeyMatch>
    requires from <= |key|
  {
    FirstSome(Matches(key), from)
  }

  /** The slot a key assigns to, if any: the key starts with "files[", the
      expression matches, and the index is an array index. */
  function Contribution(key: string): Option<KeyMatch> {
    if !StartsWith(key, Prefix) then None
    else
      var m := FindMatch(key, 0);
      if m.Some? && m.value.index <= MaxArrayIndex then m else None
  }

  /** The value of the last field, in body order, that assigns `prop` of
      slot `i`: the assignment processed last wins. */
  function LastValue(body: seq<Field>, i: nat, prop: Prop): Option<FormValue> {
    if body == [] then None
    else
      var last := body[|body| - 1];
      if Contribution(last.key) == Some(KeyMatch(i, prop)) then Some(last.value)
      else LastValue(body[..|body| - 1], i, prop)
  }

  /** Some field assigns to slot `i`. */
  predicate Seen(body: seq<Field>, i: nat) {
    LastValue(body, i, TitleProp).Some? || LastValue(body, i, FileProp).Some?
  }

  /** One plus the largest index any field assigns, or 0 when none does. */
  function Width(body: seq<Field>): nat {
    if body == [] then 0
    else
      var rest := Width(body[..|body| - 1]);
      var c := Contribution(body[|body| - 1].key);
      if c.Some? && c.value.index >= rest then c.value.index + 1 else rest
  }

  /** Width is one past the largest assigned index: every assigned slot lies
      below it, and the slot just below it is assigned. */
  lemma {:induction false} WidthIsOnePastLargestIndex(body: seq<Field>)
    ensures forall i: nat :: Seen(body, i) ==> i < Width(body)
    ensures Width(body) > 0 ==> Seen(body, Width(body) - 1)
  {
    if body != [] {
      var init := body[..|body| - 1];
      WidthIsOnePastLargestIndex(init);
      var c := Contribution(body[|body| - 1].key);
      if c.Some? {
        assert c == Some(KeyMatch(c.value.index, c.value.prop));
        assert c.value.prop == TitleProp || c.value.prop == FileProp;
        assert Seen(body, c.value.index);
      }
      forall i: nat | Seen(body, i) ensures i < Width(body) {
        if !(c.Some? && c.value.index == i) {
          assert Seen(init, i);
        }
      }
    }
  }

  /** The list the first loop builds: `Width(body)` slots, holes as `None`. */
  function EntriesOf(body: seq<Field>): seq<Option<Entry>> {
    seq(Width(body), i requires 0 <= i => SlotAfter(body, i))
  }

  function SlotAfter(body: seq<Field>, i: nat): Option<Entry> {
    if Seen(body, i) then Some(Entry(LastValue(body, i, TitleProp), LastValue(body, i, FileProp)))
    else None
  }

  /** A slot after `files[index][prop] = value`: a hole first becomes `{}`. */
  function Assigned(slot: Option<Entry>, prop: Prop, value: FormValue): Entry {
    var e := if slot.Some? then slot.value else Entry(None, None);
    if prop == TitleProp then e.(title := Some(value)) else e.(file := Some(value))
  }

  /** The first loop of the handler (documents.ts:34-47). `files[i]` is
      `None` for a hole of the sparse array. The list is as long as one plus
      the largest index assigned (the last slot is never a hole), or empty
      when no key takes part; each slot holds the last value assigned to
      each of its properties. */
  method CollectEntries(body: seq<Field>) returns (files: seq<Option<Entry>>)
    ensures forall i: nat :: Seen(body, i) ==> i < |files|
    ensures |files| > 0 ==> files[|files| - 1].Some?
    ensures forall i :: 0 <= i < |files| ==> files[i] == SlotAfter(body, i)
    ensures files == EntriesOf(body)
  {
    files := [];
    var k := 0;
    while k < |body|
      invariant 0 <= k <= |body|
      invariant |files| == Width(body[..k])
      invariant forall i :: 0 <= i < |files| ==> files[i] == SlotAfter(body[..k], i)
    {
      ghost var before := files;
      var slot := Contribution(body[k].key);
      if slot.Some? {
        files := Place(files, slot.value.index, slot.value.prop, body[k].value);
      }
      CollectStep(body, k, before, files);
      k := k + 1;
    }
    assert body[..k] == body;
    WidthIsOnePastLargestIndex(body);
  }

  /** `files[index][prop] = value` on the sparse list: assigning past the end
      lengthens the list with holes. */
  method Place(files: seq<Option<Entry>>, index: nat, prop: Prop, value: FormValue)
    returns (next: seq<Option<Entry>>)
    ensures |next| == if index < |files| then |files| else index + 1
    ensures next[index] == Some(Assigned(if index < |files| then files[index] else None, prop, value))
    ensures forall i :: 0 <= i < |next| && i != index ==> next[i] == if i < |files| then files[i] else None
  {
    next := files;
    if index >= |next| {
      next := next + seq(index - |next|, _ => None) + [None];
    }
    next := next[index := Some(Assigned(next[index], prop, value))];
  }

  /** One turn of the first loop keeps its invariant. */
  lemma CollectStep(body: seq<Field>, k: nat, before: seq<Option<Entry>>, after: seq<Option<Entry>>)
    requires k < |body|
    requires |before| == Width(body[..k])
    requires forall i :: 0 <= i < |before| ==> before[i] == SlotAfter(body[..k], i)
    requires var c := Contribution(body[k].key);
             if c.None? then after == before
             else
               var index := c.value.index;
               && |after| == (if index < |before| then |before| else index + 1)
               && after[index] == Some(Assigned(if index < |before| then before[index] else None, c.value.prop, body[k].value))
               && forall i :: 0 <= i < |after| && i != index ==> after[i] == if i < |before| then before[i] else None
    ensures |after| == Width(body[..k + 1])
    ensures forall i :: 0 <= i < |after| ==> after[i] == SlotAfter(body[..k + 1], i)
  {
    assert body[..k + 1][..k] == body[..k];
    WidthIsOnePastLargestIndex(body[..k]);
    forall i | 0 <= i < |after| ensures after[i] == SlotAfter(body[..k + 1], i) {
      SlotStep(body, k, i);
      if i >= |before| {
        assert !Seen(body[..k], i);
      }
    }
  }

  /** How one field changes a slot: the slot it names gets the value, every
      other slot stays as it was. */
  lemma SlotStep(body: seq<Field>, k: nat, i: nat)
    requires k < |body|
    ensures var c := Contribution(body[k].key);
            SlotAfter(body[..k + 1], i) ==
              if c.Some? && c.value.index == i then Some(Assigned(SlotAfter(body[..k], i), c.value.prop, body[k].value))
              else SlotAfter(body[..k], i)
  {
    LastValueStep(body, k, i, TitleProp);
    LastValueStep(body, k, i, FileProp);
    var c := Contribution(body[k].key);
    if c.Some? {
      assert c == Some(KeyMatch(c.value.index, c.value.prop));
    }
  }

  lemma LastValueStep(body: seq<Field>, k: nat, i: nat, prop: Prop)
    requires k < |body|
    ensures LastValue(body[..k + 1], i, prop) ==
            if Contribution(body[k].key) == Some(KeyMatch(i, prop)) then Some(body[k].value)
            else LastValue(body[..k], i, prop)
  {
    assert body[..k + 1][..k] == body[..k];
  }

  /** Decimal rendering of `n` with no leading zeros, as a template literal writes it. */
  function Decimal(n: nat): (ds: string)
    ensures |ds| >= 1 && AllDigits(ds)
  {
    var d := ['0' + (n % 10) as char];
    if n < 10 then d else Decimal(n / 10) + d
  }

  lemma {:induction false} DecimalRoundTrip(n: nat)
    ensures DecimalValue(Decimal(n)) == n
  {
    var ds := Decimal(n);
    if n >= 10 {
      DecimalRoundTrip(n / 10);
      assert ds[..|ds| - 1] == Decimal(n / 10);
    }
  }

  /** The key a client writes for slot `i`: `files[${i}][title]` or `files[${i}][file]`. */
  function FilesKey(i: nat, prop: Prop): string {
    Prefix + Decimal(i) + "][" + PropName(prop) + "]"
  }

  /** In `files[<ds>][<tail>`, the greedy digit run is exactly `ds`. */
  lemma IndexDigits(ds: string, tail: string)
    requires |ds| >= 1 && AllDigits(ds)
    ensures DigitRun(Prefix + ds + ("][" + tail), |Prefix|) == |ds|
  {
    var key := Prefix + ds + ("][" + tail);
    forall k | 6 <= k < 6 + |ds| ensures IsDigit(key[k]) {
      assert key[k] == ds[k - 6];
    }
    assert key[6 + |ds|] == ']';
  }

  /** `files[<ds>][<tail>` cut into its parts: the prefix, the digits, the
      separator and the tail. */
  lemma KeySegments(ds: string, tail: string)
    ensures var key := Prefix + ds + ("][" + tail);
            var q := |Prefix| + |ds|;
            && StartsWith(key[0..], Prefix) && key[|Prefix|..q] == ds
            && StartsWith(key[q..], "][") && key[q + 2..] == tail
  {
  }

  /** The key `files[<ds>][<prop>]<rest>` for a non-empty digit string `ds`
      assigns `prop` of slot `parseInt(ds, 10)`, whatever follows it. */
  lemma KeyParse(ds: string, prop: Prop, rest: string)
    requires |ds| >= 1 && AllDigits(ds)
    ensures MatchAt(Prefix + ds + "][" + PropName(prop) + "]" + rest, 0)
            == Some(KeyMatch(DecimalValue(ds), prop))
  {
    var tail := PropName(prop) + "]" + rest;
    var key := Prefix + ds + ("][" + tail);
    TextAfterDigits(Prefix, ds, "][", PropName(prop), "]", rest);
    ParseLaidOutKey(key, ds, prop, tail, rest);
  }

  /** The text after the digits of a key, `][<prop>]<rest>`, read as one piece. */
  lemma TextAfterDigits(prefix: string, ds: string, sep: string, name: string, close: string, rest: string)
    ensures prefix + ds + sep + name + close + rest == prefix + ds + (sep + (name + close + rest))
  {
  }

  /** After `files[<digits>][`, exactly one of the two property names matches. */
  lemma TailFacts(prop: Prop, rest: string)
    ensures var tail := PropName(prop) + "]" + rest;
      && (prop == TitleProp ==> StartsWith(tail, "title]"))
      && (prop == FileProp ==> !StartsWith(tail, "title]") && StartsWith(tail, "file]"))
  {
    var tail := PropName(prop) + "]" + rest;
    if prop == TitleProp {
      assert tail[..6] == "title]";
    } else {
      assert tail[..5] == "file]";
      assert tail[0] == 'f';
    }
  }

  lemma ParseLaidOutKey(key: string, ds: string, prop: Prop, tail: string, rest: string)
    requires |ds| >= 1 && AllDigits(ds)
    requires tail == PropName(prop) + "]" + rest
    requires key == Prefix + ds + ("][" + tail)
    ensures MatchAt(key, 0) == Some(KeyMatch(DecimalValue(ds), prop))
  {
    IndexDigits(ds, tail);
    KeySegments(ds, tail);
    TailFacts(prop, rest);
    assert key[0..] == key;
    var q := |Prefix| + |ds|;
    assert DigitRun(key, |Prefix|) == |ds|;
    assert key[|Prefix|..q] == ds;
    assert key[q + 2..] == tail;
  }

  /** The key parser reads back the slot and property a client wrote, also
      with any text after the closing bracket. */
  lemma KeyRoundTrip(i: nat, prop: Prop, rest: string)
    ensures MatchAt(FilesKey(i, prop) + rest, 0) == Some(KeyMatch(i, prop))
    ensures FindMatch(FilesKey(i, prop) + rest, 0) == Some(KeyMatch(i, prop))
    ensures i <= MaxArrayIndex ==> Contribution(FilesKey(i, prop) + rest) == Some(KeyMatch(i, prop))
  {
    assert FilesKey(i, prop) + rest == Prefix + Decimal(i) + "][" + PropName(prop) + "]" + rest;
    KeyParse(Decimal(i), prop, rest);
    DecimalRoundTrip(i);
  }

  function Zeros(z: nat): (ds: string)
    ensures |ds| == z && AllDigits(ds)
  {
    seq(z, _ => '0')
  }

  /** `parseInt` ignores leading zeros. */
  lemma {:induction false} ZeroPadding(z: nat, ds: string)
    requires AllDigits(ds)
    ensures DecimalValue(Zeros(z) + ds) == DecimalValue(ds)
    decreases z + |ds|
  {
    var s := Zeros(z) + ds;
    if ds == [] {
      assert s == Zeros(z);
      if z > 0 {
        assert s[..|s| - 1] == Zeros(z - 1);
        ZeroPadding(z - 1, []);
        assert Zeros(z - 1) + [] == Zeros(z - 1);
      }
    } else {
      assert s[..|s| - 1] == Zeros(z) + ds[..|ds| - 1];
      ZeroPadding(z, ds[..|ds| - 1]);
    }
  }

  /** A zero-padded index names the same slot: `files[007][title]` is slot 7. */
  lemma PaddedKey(z: nat, i: nat, prop: Prop)
    requires i <= MaxArrayIndex
    ensures Contribution(Prefix + Zeros(z) + Decimal(i) + "][" + PropName(prop) + "]")
            == Some(KeyMatch(i, prop))
  {
    var ds := Zeros(z) + Decimal(i);
    PaddedDigits(Prefix, Zeros(z), Decimal(i), "][", PropName(prop), "]");
    ZeroPadding(z, Decimal(i));
    DecimalRoundTrip(i);
    DigitsKey(ds, prop, "");
    var key := Prefix + ds + "][" + PropName(prop) + "]";
    assert key + "" == key;
  }

  /** The zeros and the digits after them read as one digit string. */
  lemma PaddedDigits(prefix: string, zeros: string, ds: string, sep: string, name: string, close: string)
    ensures prefix + zeros + ds + sep + name + close == prefix + (zeros + ds) + sep + name + close
  {
  }

  /** A key of the form `files[<ds>][<prop>]<rest>` with an index that is an
      array index takes part, for that slot and property. */
  lemma DigitsKey(ds: string, prop: Prop, rest: string)
    requires |ds| >= 1 && AllDigits(ds) && DecimalValue(ds) <= MaxArrayIndex
    ensures Contribution(Prefix + ds + "][" + PropName(prop) + "]" + rest)
            == Some(KeyMatch(DecimalValue(ds), prop))
  {
    var key := Prefix + ds + "][" + PropName(prop) + "]" + rest;
    KeyParse(ds, prop, rest);
    assert key[..|Prefix|] == Prefix;
  }

  /** Keys outside the `files[` family are skipped. */
  lemma IgnoredKey(key: string)
    requires !StartsWith(key, Prefix)
    ensures Contribution(key) == None
  {
  }

  /** The first present value is `x` exactly when `x` is present at some
      position and nothing is present between `from` and that position. */
  lemma {:induction false} FirstSomeLeftmost<T>(s: seq<Option<T>>, from: nat, x: T)
    requires from <= |s|
    ensures FirstSome(s, from) == Some(x) <==>
            exists q :: from <= q < |s| && s[q] == Some(x) && forall p :: from <= p < q ==> s[p].None?
    decreases |s| - from
  {
    if from < |s| && s[from].None? {
      FirstSomeLeftmost(s, from + 1, x);
      if FirstSome(s, from + 1) == Some(x) {
        var q :| from + 1 <= q < |s| && s[q] == Some(x) && forall p :: from + 1 <= p < q ==> s[p].None?;
        assert forall p :: from <= p < q ==> s[p].None?;
      }
      if exists q :: from <= q < |s| && s[q] == Some(x) && forall p :: from <= p < q ==> s[p].None? {
        var q :| from <= q < |s| && s[q] == Some(x) && forall p :: from <= p < q ==> s[p].None?;
        assert q != from;
      }
    } else if from < |s| {
      if exists q :: from <= q < |s| && s[q] == Some(x) && forall p :: from <= p < q ==> s[p].None? {
        var q :| from <= q < |s| && s[q] == Some(x) && forall p :: from <= p < q ==> s[p].None?;
        assert !(from < q);
      }
    }
  }

  /** `FindMatch` is the leftmost match: it finds `m` exactly when the
      expression matches with `m` at some position from `from` on and
      nowhere between `from` and that position. */
  lemma FindMatchLeftmost(key: string, from: nat, m: KeyMatch)
    requires from <= |key|
    ensures FindMatch(key, from) == Some(m) <==>
            exists q :: from <= q <= |key| && MatchAt(key, q) == Some(m) &&
                        forall p :: from <= p < q ==> MatchAt(key, p).None?
  {
    var s := Matches(key);
    FirstSomeLeftmost(s, from, m);
    assert forall q :: 0 <= q < |s| ==> s[q] == MatchAt(key, q);
  }

  /** A match at position `q` is the text `files[<ds>][<prop>]` there, where
      `ds` is the whole run of digits after `files[`, and the slot is
      `parseInt(ds, 10)`. */
  lemma MatchAtSound(key: string, q: nat, m: KeyMatch)
    requires q <= |key| && MatchAt(key, q) == Some(m)
    ensures var t := key[q..];
            var ds := t[|Prefix|..|Prefix| + DigitRun(t, |Prefix|)];
            && |ds| >= 1 && AllDigits(ds) && DecimalValue(ds) == m.index
            && StartsWith(t, Prefix + ds + "][" + PropName(m.prop) + "]")
  {
    MatchHereSound(key[q..], m);
  }

  lemma MatchHereSound(t: string, m: KeyMatch)
    requires MatchHere(t) == Some(m)
    ensures var ds := t[|Prefix|..|Prefix| + DigitRun(t, |Prefix|)];
            && |ds| >= 1 && AllDigits(ds) && DecimalValue(ds) == m.index
            && StartsWith(t, Prefix + ds + "][" + PropName(m.prop) + "]")
  {
    var n := DigitRun(t, |Prefix|);
    var e := |Prefix| + n;
    var ds := t[|Prefix|..e];
    forall k | 0 <= k < |ds| ensures IsDigit(ds[k]) {
      assert ds[k] == t[|Prefix| + k];
    }
    var name := PropName(m.prop) + "]";
    assert t[e..][..2] == "][";
    assert t[e + 2..][..|name|] == name;
    var w := Prefix + ds + "][" + PropName(m.prop) + "]";
    forall k | 0 <= k < |w| ensures t[k] == w[k] {
      if k < |Prefix| {
        assert t[k] == t[..|Prefix|][k];
      } else if k < e {
        assert w[k] == ds[k - |Prefix|];
      } else if k < e + 2 {
        assert t[k] == t[e..][..2][k - e];
      } else {
        assert t[k] == t[e + 2..][..|name|][k - e - 2];
      }
    }
    assert t[..|w|] == w;
  }

  /** Whether the expression matches at position `q` depends only on the
      text from `q` on. */
  lemma MatchAtShift(key: string, q: nat)
    requires q <= |key|
    ensures MatchAt(key, q) == MatchAt(key[q..], 0)
  {
    assert key[q..][0..] == key[q..];
  }

  /** The first match need not be at the start of the key: in
      `files[a]files[2][title]` the text after "files[a]" assigns the title
      of slot 2. Whatever text comes first, the first well-formed
      `files[<i>][<prop>]` in a key that starts with "files[" decides. */
  lemma MatchAfterText(junk: string, i: nat, prop: Prop, rest: string)
    requires i <= MaxArrayIndex
    requires StartsWith(junk + FilesKey(i, prop) + rest, Prefix)
    requires forall p :: 0 <= p < |junk| ==> MatchAt(junk + FilesKey(i, prop) + rest, p).None?
    ensures Contribution(junk + FilesKey(i, prop) + rest) == Some(KeyMatch(i, prop))
  {
    var key := junk + FilesKey(i, prop) + rest;
    var q := |junk|;
    assert key[q..] == FilesKey(i, prop) + rest;
    MatchAtShift(key, q);
    KeyRoundTrip(i, prop, rest);
    FindMatchLeftmost(key, 0, KeyMatch(i, prop));
  }

  /** A key takes part only when it starts with "files[", the expression
      matches somewhere with that slot and property and nowhere before, and
      the slot is an array index. */
  lemma ContributionSound(key: string, m: KeyMatch)
    requires Contribution(key) == Some(m)
    ensures StartsWith(key, Prefix) && m.index <= MaxArrayIndex
    ensures exists q :: 0 <= q <= |key| && MatchAt(key, q) == Some(m) &&
                        forall p :: 0 <= p < q ==> MatchAt(key, p).None?
  {
    FindMatchLeftmost(key, 0, m);
  }

  /** A slot is occupied exactly when some field's key assigns to it. */
  lemma {:induction false} SeenIffAssigned(body: seq<Field>, i: nat)
    ensures Seen(body, i) <==>
            exists k :: 0 <= k < |body| && Contribution(body[k].key).Some? && Contribution(body[k].key).value.index == i
  {
    if body != [] {
      var init := body[..|body| - 1];
      SeenIffAssigned(init, i);
      var c := Contribution(body[|body| - 1].key);
      if c.Some? && c.value.index == i {
        assert c == Some(KeyMatch(i, c.value.prop));
        assert LastValue(body, i, c.value.prop).Some?;
        assert c.value.prop == TitleProp || c.value.prop == FileProp;
        var k := |body| - 1;
        assert Contribution(body[k].key).Some? && Contribution(body[k].key).value.index == i;
      } else {
        forall k | 0 <= k < |init| ensures init[k] == body[k] { }
      }
    }
  }
}
