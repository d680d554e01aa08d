/** Flattening the persistable fields of a component into a list of named strings, and restoring them
    into the fields of another component of the same type. */
module Persistence {
  import opened Text
  import opened Wrappers

  // ---------- fields ----------

  datatype Width = W8 | W16 | W32 | W64

  /** The kinds of field that are restored, and all the others. */
  datatype Kind = BoolKind | IntKind(width: Width) | StringKind | OtherKind

  datatype Value = BoolValue(b: bool) | IntValue(i: int) | StringValue(s: string) | OtherValue(shown: string)

  /** Where a field of a struct keeps its value. */
  class Cell {
    var value: Value

    constructor (value: Value)
      ensures this.value == value
    {
      this.value := value;
    }
  }

  /** How the type of a field shows its values, if it has a String, Error or Format method of its own. */
  type Format = Option<Value -> string>

  /** A field of a struct: its name, the name of its type, and either a value with the directive of its
      persistable tag, if it has that tag, or a struct. */
  datatype Field =
    | Leaf(name: string, typeName: string, directive: Option<string>, kind: Kind, format: Format, cell: Cell)
    | Struct(name: string, typeName: string, fields: seq<Field>)

  function Half(w: Width): int {
    match w
    case W8 => 0x80
    case W16 => 0x8000
    case W32 => 0x8000_0000
    case W64 => 0x8000_0000_0000_0000
  }

  /** The integer that a field of the given width holds after being set to `i`. */
  function Wrap(w: Width, i: int): int { (i + Half(w)) % (2 * Half(w)) - Half(w) }

  predicate Fits(v: Value, kind: Kind) {
    match kind
    case BoolKind => v.BoolValue?
    case IntKind(w) => v.IntValue? && -Half(w) <= v.i < Half(w)
    case StringKind => v.StringValue?
    case OtherKind => v.OtherValue?
  }

  /** The "%v" form of a value: what a method of its type makes of it, or else its plain form. */
  function Show(format: Format, v: Value): string {
    match format
    case Some(show) => show(v)
    case None => Plain(v)
  }

  function Plain(v: Value): string {
    match v
    case BoolValue(b) => PrintBool(b)
    case IntValue(i) => PrintInt(i)
    case StringValue(s) => s
    case OtherValue(shown) => shown
  }

  /** A field of the given kind after being set from a string; a field of another kind is left alone. */
  function Parse(kind: Kind, text: string, was: Value): Value {
    match kind
    case BoolKind => BoolValue(ParseBool(text))
    case IntKind(w) => IntValue(Wrap(w, Atoi(text)))
    case StringKind => StringValue(text)
    case OtherKind => was
  }

  /** The value is what the text is read as: a boolean word, a decimal integer with zero for anything else,
      or the text itself. */
  predicate ReadsAs(text: string, kind: Kind, v: Value) {
    match kind
    case BoolKind => v == BoolValue(ParseBool(text))
    case IntKind(w) => v == IntValue(Wrap(w, Atoi(text)))
    case StringKind => v == StringValue(text)
    case OtherKind => false
  }

  lemma {:induction false} PlainReadsAs(kind: Kind, v: Value)
    requires Fits(v, kind) && kind != OtherKind
    ensures ReadsAs(Plain(v), kind, v)
  {
    match kind
    case BoolKind => ParsePrintBool(v.b);
    case IntKind(w) =>
      AtoiPrint(v.i);
      WrapIn(w, v.i);
    case StringKind =>
  }

  /** Setting a field from the text its value was shown as gives the value back exactly when its type has no
      method of its own for that, or one whose text is read as the value. */
  lemma {:induction false} ParseShowExactlyWhen(kind: Kind, format: Format, v: Value, was: Value)
    requires Fits(v, kind) && kind != OtherKind
    ensures Parse(kind, Show(format, v), was) == v <==> (format.Some? ==> ReadsAs(format.value(v), kind, v))
  {
    PlainReadsAs(kind, v);
  }

  /** An integer type whose method writes something other than a decimal, as a duration's does, keeps only
      its zero; a boolean type whose method writes none of the words for true keeps only false; a string
      type keeps the strings that its method leaves as they are. */
  lemma {:induction false} MethodKeeps(kind: Kind, text: string, v: Value)
    requires Fits(v, kind) && kind != OtherKind
    ensures kind.IntKind? && !Decimal(text) ==> (ReadsAs(text, kind, v) <==> v == IntValue(0))
    ensures kind.BoolKind? && !ParseBool(text) ==> (ReadsAs(text, kind, v) <==> v == BoolValue(false))
    ensures kind.StringKind? ==> (ReadsAs(text, kind, v) <==> text == v.s)
  {
  }

  lemma {:induction false} WrapIn(w: Width, i: int)
    requires -Half(w) <= i < Half(w)
    ensures Wrap(w, i) == i
  {
  }

  /** Setting an integer field keeps the low bits of the integer, read as a signed number. */
  lemma {:induction false} WrapIs(w: Width, i: int) returns (k: int)
    ensures
      match w
      case W8 => -128 <= Wrap(w, i) <= 127 && i == Wrap(w, i) + 256 * k
      case W16 => -32768 <= Wrap(w, i) <= 32767 && i == Wrap(w, i) + 65536 * k
      case W32 => -2147483648 <= Wrap(w, i) <= 2147483647 && i == Wrap(w, i) + 4294967296 * k
      case W64 => MIN_INT <= Wrap(w, i) <= MAX_INT && i == Wrap(w, i) + 18446744073709551616 * k
  {
    k := (i + Half(w)) / (2 * Half(w));
  }

  // ---------- encryption ----------

  type Nonce = n: seq<Byte> | |n| == 12 witness [0, 0, 0, 0, 0, 0, 0, 0, 0, 0, 0, 0]

  /** An authenticated cipher: `open` is None when the text does not authenticate. */
  datatype Cipher = Cipher(
    seal: (seq<Byte>, Nonce, string) -> seq<Byte>,
    open: (seq<Byte>, Nonce, seq<Byte>) -> Option<string>)

  ghost predicate Ideal(c: Cipher) {
    forall key, nonce, plain :: c.open(key, nonce, c.seal(key, nonce, plain)) == Some(plain)
  }

  /** The key bytes, if the key is hexadecimal and of a length that AES accepts. */
  function KeyBytes(key: string): Option<seq<Byte>> {
    match HexDecode(key)
    case Some(bytes) => if |bytes| in {16, 24, 32} then Some(bytes) else None
    case None => None
  }

  /** The nonce and the sealed text in hexadecimal; None for an error. */
  function Encrypt(c: Cipher, key: string, nonce: Option<Nonce>, plain: string): Option<string> {
    match (KeyBytes(key), nonce)
    case (Some(bytes), Some(n)) => if key == "" then None else Some(HexEncode(n) + HexEncode(c.seal(bytes, n, plain)))
    case _ => None
  }

  /** The key gets past decoding, to where the nonce is sliced off. */
  predicate Decodable(key: string) { key != "" && HexDecode(key).Some? }

  /** None for an error; slicing off the nonce needs 24 characters. */
  function Decrypt(c: Cipher, key: string, text: string): Option<string>
    requires Decodable(key) ==> 24 <= |text|
  {
    if !Decodable(key) then None
    else match (KeyBytes(key), HexDecode(text[..24]), HexDecode(text[24..]))
      case (Some(bytes), Some(nonce), Some(sealed)) => if |nonce| == 12 then c.open(bytes, nonce, sealed) else None
      case _ => None
  }

  lemma {:induction false} DecryptEncrypt(c: Cipher, key: string, nonce: Option<Nonce>, plain: string)
    requires Ideal(c) && Encrypt(c, key, nonce, plain).Some?
    ensures
      var text := Encrypt(c, key, nonce, plain).value;
      24 <= |text| && Decrypt(c, key, text) == Some(plain)
  {
    var bytes, n := KeyBytes(key).value, nonce.value;
    var sealed := c.seal(bytes, n, plain);
    var text := Encrypt(c, key, nonce, plain).value;
    assert text[..24] == HexEncode(n) && text[24..] == HexEncode(sealed);
    HexRoundTrip(n);
    HexRoundTrip(sealed);
  }

  // ---------- entries ----------

  datatype PType = PType(name: string, typeHierarchy: string, value: string, isEncrypted: bool)

  /** A persistable leaf: where it is, what its tag says, and its cell. */
  datatype Place = Place(name: string, hierarchy: string, directive: string, kind: Kind, format: Format, cell: Cell)

  /** The tagged leaves of a struct in the order of its fields, with embedded SimpleComponents left out. */
  function Places(fields: seq<Field>, hierarchy: string): seq<Place> {
    if fields == [] then []
    else Places(fields[..|fields| - 1], hierarchy) + PlacesOf(fields[|fields| - 1], hierarchy)
  }

  function PlacesOf(f: Field, hierarchy: string): seq<Place> {
    if f.typeName == "SimpleComponent" then []
    else match f
      case Struct(_, typeName, fields) => Places(fields, hierarchy + "." + typeName)
      case Leaf(name, _, directive, kind, format, cell) =>
        if directive.Some? then [Place(name, hierarchy, directive.value, kind, format, cell)] else []
  }

  /** What a run encrypts with: the cipher, the key and, for each position in the list of entries, the
      nonce drawn there, None when drawing it failed. */
  datatype Vault = Vault(cipher: Cipher, key: string, draw: nat -> Option<Nonce>)

  /** The tagged leaf `p` is somewhere below the fields, its hierarchy being the names of the types on the way,
      none of which is an embedded SimpleComponent. */
  ghost predicate Below(p: Place, fields: seq<Field>, hierarchy: string)
    decreases fields
  {
    exists i :: 0 <= i < |fields| && BelowField(p, fields[i], hierarchy)
  }

  ghost predicate BelowField(p: Place, f: Field, hierarchy: string)
    decreases f
  {
    && f.typeName != "SimpleComponent"
    && match f
       case Struct(_, typeName, fields) => Below(p, fields, hierarchy + "." + typeName)
       case Leaf(name, _, directive, kind, format, cell) =>
         directive == Some(p.directive) && p == Place(name, hierarchy, p.directive, kind, format, cell)
  }

  /** The places are exactly the tagged leaves. */
  lemma {:induction false} PlacesAre(p: Place, fields: seq<Field>, hierarchy: string)
    ensures p in Places(fields, hierarchy) <==> Below(p, fields, hierarchy)
    decreases fields
  {
    if fields != [] {
      var n := |fields| - 1;
      PlacesAre(p, fields[..n], hierarchy);
      PlacesOfAre(p, fields[n], hierarchy);
      assert Below(p, fields[..n], hierarchy) ==> Below(p, fields, hierarchy) by {
        if Below(p, fields[..n], hierarchy) {
          var i :| 0 <= i < n && BelowField(p, fields[..n][i], hierarchy);
          assert BelowField(p, fields[i], hierarchy);
        }
      }
      if Below(p, fields, hierarchy) && !BelowField(p, fields[n], hierarchy) {
        var i :| 0 <= i < |fields| && BelowField(p, fields[i], hierarchy);
        assert fields[..n][i] == fields[i];
      }
    }
  }

  lemma {:induction false} PlacesOfAre(p: Place, f: Field, hierarchy: string)
    ensures p in PlacesOf(f, hierarchy) <==> BelowField(p, f, hierarchy)
    decreases f
  {
    if f.Struct? && f.typeName != "SimpleComponent" {
      PlacesAre(p, f.fields, hierarchy + "." + f.typeName);
    }
  }

  /** The entry made of a leaf that shows as `text`, as number `at` of the list. */
  function EntryOf(p: Place, text: string, vault: Vault, at: nat): PType {
    if p.directive == "encrypt" && vault.key != "" then
      match Encrypt(vault.cipher, vault.key, vault.draw(at), text)
      case Some(c) => PType(p.name, p.hierarchy, c, true)
      case None => PType(p.name, p.hierarchy, text, false)
    else PType(p.name, p.hierarchy, text, false)
  }

  /** A key of AES in hexadecimal: 16, 24 or 32 bytes. */
  predicate AesKey(key: string) { (|key| == 32 || |key| == 48 || |key| == 64) && HexDigits(key) }

  lemma {:induction false} AesKeyBytes(key: string)
    ensures KeyBytes(key).Some? <==> AesKey(key)
    ensures AesKey(key) ==> KeyBytes(key) == HexDecode(key)
  {
    DecodesExactlyWhen(key);
  }

  /** The entry of a leaf that shows as `text`: in clear under any tag but encrypt, and under that one sealed with
      a nonce of its own exactly when the key is one of AES and a nonce is to be had. */
  predicate MadeOf(e: PType, p: Place, text: string, vault: Vault, at: nat) {
    && e.name == p.name && e.typeHierarchy == p.hierarchy
    && (e.isEncrypted <==> p.directive == "encrypt" && AesKey(vault.key) && vault.draw(at).Some?)
    && e.value == match (e.isEncrypted, vault.draw(at), HexDecode(vault.key))
                  case (true, Some(n), Some(bytes)) => HexEncode(n) + HexEncode(vault.cipher.seal(bytes, n, text))
                  case _ => text
  }

  lemma {:induction false} EntryIs(p: Place, text: string, vault: Vault, at: nat)
    ensures MadeOf(EntryOf(p, text, vault, at), p, text, vault, at)
  {
    AesKeyBytes(vault.key);
    if p.directive == "encrypt" && AesKey(vault.key) && vault.draw(at).Some? {
      var bytes, n := HexDecode(vault.key).value, vault.draw(at).value;
      assert Encrypt(vault.cipher, vault.key, Some(n), text)
             == Some(HexEncode(n) + HexEncode(vault.cipher.seal(bytes, n, text)));
    }
  }

  /** With the key made of 16, 24 or 32 bytes and a nonce drawn, a leaf tagged encrypt is never in clear. */
  lemma {:induction false} SealedWithKey(p: Place, text: string, vault: Vault, at: nat, bytes: seq<Byte>, n: Nonce)
    requires |bytes| == 16 || |bytes| == 24 || |bytes| == 32
    requires vault.key == HexEncode(bytes) && vault.draw(at) == Some(n) && p.directive == "encrypt"
    ensures EntryOf(p, text, vault, at)
            == PType(p.name, p.hierarchy, HexEncode(n) + HexEncode(vault.cipher.seal(bytes, n, text)), true)
  {
    HexRoundTrip(bytes);
  }

  /** Restoring from the entry does not run out of range. */
  predicate Readable(e: PType, key: string) { e.isEncrypted && Decodable(key) ==> 24 <= |e.value| }

  /** The string that an entry is restored from. */
  function TextOf(e: PType, vault: Vault): string
    requires Readable(e, vault.key)
  {
    if e.isEncrypted && vault.key != "" then
      match Decrypt(vault.cipher, vault.key, e.value)
      case Some(plain) => if plain != "" then plain else e.value
      case None => e.value
    else e.value
  }

  /** An encrypted entry that opens under the key is restored from what it opens to, if that is not empty; one
      that does not open, from its ciphertext. */
  lemma {:induction false} OpenedText(e: PType, vault: Vault, bytes: seq<Byte>, nonce: Nonce, sealed: seq<Byte>)
    requires e.isEncrypted && AesKey(vault.key) && HexDecode(vault.key) == Some(bytes)
    requires 24 <= |e.value| && HexDecode(e.value[..24]) == Some(nonce) && HexDecode(e.value[24..]) == Some(sealed)
    ensures TextOf(e, vault) ==
            match vault.cipher.open(bytes, nonce, sealed)
            case Some(plain) => if plain == "" then e.value else plain
            case None => e.value
  {
    AesKeyBytes(vault.key);
  }

  /** So does one whose key or whose value is not of the right form; and an entry that is not encrypted is restored
      from its value, whatever the key. */
  lemma {:induction false} UnopenedText(e: PType, vault: Vault)
    requires Readable(e, vault.key)
    requires !e.isEncrypted || !AesKey(vault.key) || !HexDigits(e.value) || |e.value| % 2 != 0
    ensures TextOf(e, vault) == e.value
  {
    AesKeyBytes(vault.key);
    DecodesExactlyWhen(vault.key);
    if e.isEncrypted && AesKey(vault.key) {
      DecodesExactlyWhen(e.value[..24]);
      DecodesExactlyWhen(e.value[24..]);
      HexParts(e.value, 24);
    }
  }

  lemma {:induction false} HexParts(s: string, n: nat)
    requires n <= |s|
    ensures HexDigits(s[..n]) && HexDigits(s[n..]) ==> HexDigits(s)
  {
    if HexDigits(s[..n]) && HexDigits(s[n..]) {
      forall i | 0 <= i < |s|
        ensures HexDigit(s[i])
      {
        assert s[i] == if i < n then s[..n][i] else s[n..][i - n];
      }
    }
  }

  predicate Restorable(p: Place) { p.directive == "native" || p.directive == "encrypt" }

  /** The leaf is set from the entry of its name. */
  predicate Takes(p: Place, entries: map<string, PType>) {
    Restorable(p) && p.name in entries && entries[p.name].typeHierarchy == p.hierarchy
  }

  predicate CanRestore(p: Place, entries: map<string, PType>, key: string) {
    Takes(p, entries) ==> Readable(entries[p.name], key)
  }

  /** A leaf after restoring from the entries by name. */
  function Restored(p: Place, was: Value, entries: map<string, PType>, vault: Vault): Value
    requires CanRestore(p, entries, vault.key)
  {
    if Takes(p, entries) then Parse(p.kind, TextOf(entries[p.name], vault), was) else was
  }

  /** A leaf tagged native or encrypt takes the entry of its name if that has its hierarchy, and then holds what
      the text is read as; any other leaf, and one of another kind, keeps what it had. */
  predicate TakenFrom(p: Place, was: Value, now: Value, entries: map<string, PType>, vault: Vault) {
    if (p.directive == "native" || p.directive == "encrypt") && p.kind != OtherKind
       && p.name in entries && entries[p.name].typeHierarchy == p.hierarchy
    then Readable(entries[p.name], vault.key) && ReadsAs(TextOf(entries[p.name], vault), p.kind, now)
    else now == was
  }

  lemma {:induction false} RestoredIs(p: Place, was: Value, entries: map<string, PType>, vault: Vault)
    requires CanRestore(p, entries, vault.key)
    ensures TakenFrom(p, was, Restored(p, was, entries, vault), entries, vault)
  {
  }

  /** The entry `e` made of the leaf `p` with value `v` brings the value back. */
  predicate Survives(p: Place, v: Value, e: PType) {
    match p.format
    case None => !(e.isEncrypted && v == StringValue(""))
    case Some(show) => ReadsAs(if e.isEncrypted && show(v) == "" then e.value else show(v), p.kind, v)
  }

  /** One leaf there and back. It is restored exactly when, its type having no method to show it, it is no
      empty string that was encrypted, which comes back as its ciphertext; or else when what comes back of
      the text made by the method is read as the value. */
  lemma {:induction false} LeafRoundTripExactlyWhen(p: Place, v: Value, vault: Vault, at: nat, was: Value)
    requires Ideal(vault.cipher) && Fits(v, p.kind) && p.kind != OtherKind
    ensures
      var e := EntryOf(p, Show(p.format, v), vault, at);
      && Readable(e, vault.key)
      && (Parse(p.kind, TextOf(e, vault), was) == v <==> Survives(p, v, e))
  {
    var e := EntryOf(p, Show(p.format, v), vault, at);
    EntryComesBack(p, v, vault, at);
    PlainReadsAs(p.kind, v);
    if p.format.None? && e.isEncrypted && Plain(v) == "" {
      assert v == StringValue("");
      assert |e.value| >= 24;
    }
  }

  /** The text that a persisted leaf comes back as. */
  function Back(p: Place, v: Value, vault: Vault, at: nat): string {
    var e := EntryOf(p, Show(p.format, v), vault, at);
    if e.isEncrypted && Show(p.format, v) == "" then e.value else Show(p.format, v)
  }

  lemma {:induction false} EntryComesBack(p: Place, v: Value, vault: Vault, at: nat)
    requires Ideal(vault.cipher)
    ensures
      var e := EntryOf(p, Show(p.format, v), vault, at);
      Readable(e, vault.key) && TextOf(e, vault) == Back(p, v, vault, at) && (e.isEncrypted ==> 24 <= |e.value|)
  {
    if EntryOf(p, Show(p.format, v), vault, at).isEncrypted {
      DecryptEncrypt(vault.cipher, vault.key, vault.draw(at), Show(p.format, v));
    }
  }

  // ---------- marshalling and unmarshalling ----------

  /** The list that marshalType appends to. */
  class PTypes {
    var items: seq<PType>

    constructor ()
      ensures items == []
    {
      items := [];
    }
  }

  /** The cells of the places hold the values, in order. */
  ghost predicate Hold(places: seq<Place>, values: seq<Value>)
    reads Cells(places)
  {
    |values| == |places| && forall k :: 0 <= k < |places| ==> places[k].cell.value == values[k]
  }

  ghost function Cells(places: seq<Place>): set<Cell> { set p | p in places :: p.cell }

  lemma {:induction false} HoldParts(a: seq<Place>, b: seq<Place>, values: seq<Value>)
    requires Hold(a + b, values)
    ensures Hold(a, values[..|a|]) && Hold(b, values[|a|..])
  {
    assert forall k :: 0 <= k < |a| ==> (a + b)[k] == a[k];
    assert forall k :: 0 <= k < |b| ==> (a + b)[|a| + k] == b[k];
  }

  lemma {:induction false} HoldWhole(a: seq<Place>, va: seq<Value>, b: seq<Place>, vb: seq<Value>)
    requires Hold(a, va) && Hold(b, vb)
    ensures Hold(a + b, va + vb)
  {
  }

  /** The list `items` is `before` with one entry appended for each of the places, holding the values
      given, in order; each entry is numbered by its position in the list. */
  ghost predicate Appended(items: seq<PType>, before: seq<PType>, places: seq<Place>, values: seq<Value>,
                           vault: Vault) {
    && |values| == |places| && |items| == |before| + |places|
    && (forall i :: 0 <= i < |before| ==> items[i] == before[i])
    && (forall k :: 0 <= k < |places| ==>
          items[|before| + k] == EntryOf(places[k], Show(places[k].format, values[k]), vault, |before| + k))
  }

  lemma {:induction false} AppendedMore(items: seq<PType>, mid: seq<PType>, before: seq<PType>,
                                        a: seq<Place>, va: seq<Value>, b: seq<Place>, vb: seq<Value>, vault: Vault)
    requires Appended(mid, before, a, va, vault) && Appended(items, mid, b, vb, vault)
    ensures Appended(items, before, a + b, va + vb, vault)
  {
    forall i | 0 <= i < |before|
      ensures items[i] == before[i]
    {
      assert items[i] == mid[i];
    }
    forall k | 0 <= k < |a + b|
      ensures items[|before| + k] == EntryOf((a + b)[k], Show((a + b)[k].format, (va + vb)[k]), vault, |before| + k)
    {
      var i := |before| + k;
      if k < |a| {
        assert items[i] == mid[i] == EntryOf(a[k], Show(a[k].format, va[k]), vault, i);
      } else {
        var l := k - |a|;
        assert |mid| + l == i;
        assert items[i] == EntryOf(b[l], Show(b[l].format, vb[l]), vault, i);
      }
    }
  }

  /** Each of the appended entries is in clear or sealed as the tag of its leaf demands. */
  ghost predicate AllMade(items: seq<PType>, from: nat, places: seq<Place>, values: seq<Value>, vault: Vault) {
    && |items| == from + |places| && |values| == |places|
    && forall k :: 0 <= k < |places| ==>
         MadeOf(items[from + k], places[k], Show(places[k].format, values[k]), vault, from + k)
  }

  lemma {:induction false} AppendedMade(items: seq<PType>, before: seq<PType>, places: seq<Place>, values: seq<Value>,
                                        vault: Vault)
    requires Appended(items, before, places, values, vault)
    ensures AllMade(items, |before|, places, values, vault)
  {
    forall k | 0 <= k < |places|
      ensures MadeOf(items[|before| + k], places[k], Show(places[k].format, values[k]), vault, |before| + k)
    {
      EntryIs(places[k], Show(places[k].format, values[k]), vault, |before| + k);
    }
  }

  lemma {:induction false} PrefixCancels<T>(a: seq<T>, b: seq<T>, rest: seq<T>)
    requires a + b <= a + rest
    ensures |b| <= |rest| && rest == b + rest[|b|..]
  {
    assert forall k :: 0 <= k < |b| ==> (a + b)[|a| + k] == b[k] && (a + rest)[|a| + k] == rest[k];
  }

  /** One field of the loop. */
  method MarshalField(field: Field, hierarchy: string, vault: Vault, pTypes: PTypes, ghost values: seq<Value>)
    requires Hold(PlacesOf(field, hierarchy), values)
    modifies pTypes
    ensures Appended(pTypes.items, old(pTypes.items), PlacesOf(field, hierarchy), values, vault)
    decreases field
  {
    if field.typeName != "SimpleComponent" {
      match field
      case Struct(_, typeName, inner) =>
        MarshalType(inner, hierarchy + "." + typeName, vault, pTypes, values);
      case Leaf(name, _, directive, kind, format, cell) =>
        if directive.Some? {
          var strValue, isEncrypted := Show(format, cell.value), false;
          if directive.value == "encrypt" && vault.key != "" {
            var sealed := Encrypt(vault.cipher, vault.key, vault.draw(|pTypes.items|), strValue);
            if sealed.Some? {
              strValue, isEncrypted := sealed.value, true;
            }
          }
          pTypes.items := pTypes.items + [PType(name, hierarchy, strValue, isEncrypted)];
        }
    }
  }

  /** The loop over the fields of a struct appends one entry for each tagged leaf, in order. */
  method MarshalType(fields: seq<Field>, hierarchy: string, vault: Vault, pTypes: PTypes, ghost values: seq<Value>)
    requires Hold(Places(fields, hierarchy), values)
    modifies pTypes
    ensures Appended(pTypes.items, old(pTypes.items), Places(fields, hierarchy), values, vault)
    ensures AllMade(pTypes.items, |old(pTypes.items)|, Places(fields, hierarchy), values, vault)
    decreases fields
  {
    ghost var before := pTypes.items;
    ghost var done, rest := [], Places(fields, hierarchy);
    ghost var past, left := [], values;
    for i := 0 to |fields|
      invariant Split(fields, hierarchy, i, done, rest)
      invariant Hold(rest, left) && values == past + left
      invariant Appended(pTypes.items, before, done, past, vault)
    {
      ghost var here, beyond := NextField(fields, hierarchy, i, done, rest);
      HoldParts(here, beyond, left);
      ghost var mid, now := pTypes.items, left[..|here|];
      MarshalField(fields[i], hierarchy, vault, pTypes, now);
      AppendedMore(pTypes.items, mid, before, done, past, here, now, vault);
      Regroups(past, left, |here|);
      done, rest := done + here, beyond;
      past, left := past + now, left[|here|..];
    }
    AllSplit(fields, hierarchy, done, rest);
    assert past == values;
    AppendedMade(pTypes.items, before, done, past, vault);
  }

  lemma {:induction false} Regroups<T>(a: seq<T>, b: seq<T>, n: nat)
    requires n <= |b|
    ensures a + b == (a + b[..n]) + b[n..]
  {
  }

  /** The places of the first `i` fields, and those of the others. */
  ghost predicate Split(fields: seq<Field>, hierarchy: string, i: nat, done: seq<Place>, rest: seq<Place>) {
    i <= |fields| && done == Places(fields[..i], hierarchy) && Places(fields, hierarchy) == done + rest
  }

  lemma {:induction false} NextField(fields: seq<Field>, hierarchy: string, i: nat, done: seq<Place>, rest: seq<Place>)
    returns (here: seq<Place>, beyond: seq<Place>)
    requires i < |fields| && Split(fields, hierarchy, i, done, rest)
    ensures here == PlacesOf(fields[i], hierarchy) && rest == here + beyond
    ensures Split(fields, hierarchy, i + 1, done + here, beyond)
  {
    here := PlacesOf(fields[i], hierarchy);
    assert fields[..i + 1][..i] == fields[..i];
    PlacesPrefix(fields, hierarchy, i + 1);
    PrefixCancels(done, here, rest);
    beyond := rest[|here|..];
    assert done + (here + beyond) == (done + here) + beyond;
  }

  lemma {:induction false} AllSplit(fields: seq<Field>, hierarchy: string, done: seq<Place>, rest: seq<Place>)
    requires Split(fields, hierarchy, |fields|, done, rest)
    ensures done == Places(fields, hierarchy) && rest == []
  {
    assert fields[..|fields|] == fields;
  }

  /** No two of the places share a cell. */
  ghost predicate Distinct(places: seq<Place>) {
    forall j, k :: 0 <= j < k < |places| ==> places[j].cell != places[k].cell
  }

  predicate AllReadable(places: seq<Place>, pTypes: map<string, PType>, key: string) {
    forall k :: 0 <= k < |places| ==> CanRestore(places[k], pTypes, key)
  }

  /** The values of the places after restoring. */
  function RestoredAll(places: seq<Place>, was: seq<Value>, pTypes: map<string, PType>, vault: Vault)
    : (values: seq<Value>)
    requires |was| == |places| && AllReadable(places, pTypes, vault.key)
    ensures |values| == |places|
  {
    seq(|places|, k requires 0 <= k < |places| => Restored(places[k], was[k], pTypes, vault))
  }

  /** Each of the places has taken its entry or kept its value, as its tag and its kind demand. */
  ghost predicate AllTaken(places: seq<Place>, was: seq<Value>, now: seq<Value>, entries: map<string, PType>,
                           vault: Vault) {
    && |was| == |now| == |places|
    && forall k :: 0 <= k < |places| ==> TakenFrom(places[k], was[k], now[k], entries, vault)
  }

  lemma {:induction false} RestoredTaken(places: seq<Place>, was: seq<Value>, entries: map<string, PType>, vault: Vault)
    requires |was| == |places| && AllReadable(places, entries, vault.key)
    ensures AllTaken(places, was, RestoredAll(places, was, entries, vault), entries, vault)
  {
    forall k | 0 <= k < |places|
      ensures TakenFrom(places[k], was[k], RestoredAll(places, was, entries, vault)[k], entries, vault)
    {
      assert CanRestore(places[k], entries, vault.key);
      RestoredIs(places[k], was[k], entries, vault);
    }
  }

  /** One field of the loop. */
  method UnmarshalField(field: Field, hierarchy: string, vault: Vault, pTypes: map<string, PType>,
                        ghost was: seq<Value>)
    requires Distinct(PlacesOf(field, hierarchy)) && AllReadable(PlacesOf(field, hierarchy), pTypes, vault.key)
    requires Hold(PlacesOf(field, hierarchy), was)
    modifies Cells(PlacesOf(field, hierarchy))
    ensures Hold(PlacesOf(field, hierarchy), RestoredAll(PlacesOf(field, hierarchy), was, pTypes, vault))
    decreases field
  {
    if field.typeName != "SimpleComponent" {
      match field
      case Struct(_, typeName, inner) =>
        UnmarshalType(inner, hierarchy + "." + typeName, vault, pTypes, was);
      case Leaf(name, _, directive, kind, format, cell) =>
        if directive == Some("native") || directive == Some("encrypt") {
          if name in pTypes && pTypes[name].typeHierarchy == hierarchy {
            var pType := pTypes[name];
            var strValue := pType.value;
            assert CanRestore(PlacesOf(field, hierarchy)[0], pTypes, vault.key);
            if pType.isEncrypted && vault.key != "" {
              var plain := Decrypt(vault.cipher, vault.key, strValue);
              if plain.Some? && plain.value != "" {
                strValue := plain.value;
              }
            }
            match kind {
              case BoolKind => cell.value := BoolValue(ParseBool(strValue));
              case IntKind(w) => cell.value := IntValue(Wrap(w, Atoi(strValue)));
              case StringKind => cell.value := StringValue(strValue);
              case OtherKind =>
            }
          }
        }
    }
  }

  lemma {:induction false} RestoredMore(a: seq<Place>, va: seq<Value>, b: seq<Place>, vb: seq<Value>,
                                        pTypes: map<string, PType>, vault: Vault)
    requires |va| == |a| && |vb| == |b| && AllReadable(a, pTypes, vault.key) && AllReadable(b, pTypes, vault.key)
    ensures AllReadable(a + b, pTypes, vault.key)
    ensures RestoredAll(a + b, va + vb, pTypes, vault)
            == RestoredAll(a, va, pTypes, vault) + RestoredAll(b, vb, pTypes, vault)
  {
  }

  lemma {:induction false} ReadableParts(a: seq<Place>, b: seq<Place>, pTypes: map<string, PType>, key: string)
    requires AllReadable(a + b, pTypes, key)
    ensures AllReadable(a, pTypes, key) && AllReadable(b, pTypes, key)
  {
    assert forall k :: 0 <= k < |a| ==> (a + b)[k] == a[k];
    assert forall k :: 0 <= k < |b| ==> (a + b)[|a| + k] == b[k];
  }

  lemma {:induction false} DistinctParts(a: seq<Place>, b: seq<Place>, c: seq<Place>)
    requires Distinct(a + (b + c))
    ensures Distinct(b)
    ensures forall p :: p in a || p in c ==> p.cell !in Cells(b)
    ensures Cells(b) <= Cells(a + (b + c))
  {
    var all := a + (b + c);
    assert forall k :: 0 <= k < |a| ==> all[k] == a[k];
    assert forall k :: 0 <= k < |b| ==> all[|a| + k] == b[k];
    assert forall k :: 0 <= k < |c| ==> all[|a| + |b| + k] == c[k];
  }

  /** The loop over the fields of a struct restores each tagged leaf, and changes nothing else. */
  method UnmarshalType(fields: seq<Field>, hierarchy: string, vault: Vault, pTypes: map<string, PType>,
                       ghost was: seq<Value>)
    requires Distinct(Places(fields, hierarchy)) && AllReadable(Places(fields, hierarchy), pTypes, vault.key)
    requires Hold(Places(fields, hierarchy), was)
    modifies Cells(Places(fields, hierarchy))
    ensures
      var now := RestoredAll(Places(fields, hierarchy), was, pTypes, vault);
      Hold(Places(fields, hierarchy), now) && AllTaken(Places(fields, hierarchy), was, now, pTypes, vault)
    decreases fields
  {
    ghost var done, rest := [], Places(fields, hierarchy);
    ghost var past, left, made := [], was, [];
    for i := 0 to |fields|
      invariant Split(fields, hierarchy, i, done, rest)
      invariant AllReadable(done, pTypes, vault.key) && AllReadable(rest, pTypes, vault.key)
      invariant |past| == |done| && was == past + left && made == RestoredAll(done, past, pTypes, vault)
      invariant Hold(done, made) && Hold(rest, left)
    {
      ghost var here, beyond := NextField(fields, hierarchy, i, done, rest);
      DistinctParts(done, here, beyond);
      ReadableParts(here, beyond, pTypes, vault.key);
      HoldParts(here, beyond, left);
      ghost var now, later := left[..|here|], left[|here|..];
      UnmarshalField(fields[i], hierarchy, vault, pTypes, now);
      ghost var more := RestoredAll(here, now, pTypes, vault);
      assert Hold(done, made) && Hold(beyond, later);
      HoldWhole(done, made, here, more);
      RestoredMore(done, past, here, now, pTypes, vault);
      Regroups(past, left, |here|);
      done, rest := done + here, beyond;
      past, left, made := past + now, later, made + more;
    }
    AllSplit(fields, hierarchy, done, rest);
    assert past == was;
    RestoredTaken(done, past, pTypes, vault);
  }

  lemma {:induction false} PlacesPrefix(fields: seq<Field>, hierarchy: string, n: nat)
    requires n <= |fields|
    ensures Places(fields[..n], hierarchy) <= Places(fields, hierarchy)
    decreases |fields| - n
  {
    if n < |fields| {
      PlacesPrefix(fields, hierarchy, n + 1);
      assert fields[..n + 1][..n] == fields[..n];
    } else {
      assert fields[..n] == fields;
    }
  }

  // ---------- saving and loading a component ----------

  /** One entry for each of the places, in order. */
  ghost predicate Entries(items: seq<PType>, places: seq<Place>, values: seq<Value>, vault: Vault) {
    && |items| == |places| == |values|
    && forall k :: 0 <= k < |items| ==> items[k] == EntryOf(places[k], Show(places[k].format, values[k]), vault, k)
  }

  lemma {:induction false} EntriesFromNothing(items: seq<PType>, places: seq<Place>, values: seq<Value>, vault: Vault)
    requires Appended(items, [], places, values, vault)
    ensures Entries(items, places, values, vault)
  {
    var before: seq<PType> := [];
    forall k | 0 <= k < |items|
      ensures items[k] == EntryOf(places[k], Show(places[k].format, values[k]), vault, k)
    {
      var i := |before| + k;
      assert i == k;
      assert items[i] == EntryOf(places[k], Show(places[k].format, values[k]), vault, i);
    }
  }

  lemma {:induction false} PlacesAllocated(fields: seq<Field>, hierarchy: string)
    ensures forall p :: p in Places(fields, hierarchy) ==> allocated(p.cell)
    decreases fields
  {
    if fields != [] {
      var last := fields[|fields| - 1];
      PlacesAllocated(fields[..|fields| - 1], hierarchy);
      if last.Struct? {
        PlacesAllocated(last.fields, hierarchy + "." + last.typeName);
      }
    }
  }

  /** The entries to persist for a component of the named type. */
  method Persistable(fields: seq<Field>, typeName: string, vault: Vault, ghost values: seq<Value>)
    returns (items: seq<PType>)
    requires Hold(Places(fields, typeName), values)
    ensures Entries(items, Places(fields, typeName), values, vault)
  {
    PlacesAllocated(fields, typeName);
    var pTypes := new PTypes();
    MarshalType(fields, typeName, vault, pTypes, values);
    items := pTypes.items;
    EntriesFromNothing(items, Places(fields, typeName), values, vault);
  }

  /** The index of the last place with the given name. */
  function LastNamed(places: seq<Place>, name: string): (at: Option<nat>)
    ensures at.None? ==> forall j :: 0 <= j < |places| ==> places[j].name != name
    ensures at.Some? ==> at.value < |places| && places[at.value].name == name
    ensures at.Some? ==> forall j :: at.value < j < |places| ==> places[j].name != name
  {
    if places == [] then None
    else if places[|places| - 1].name == name then Some(|places| - 1)
    else LastNamed(places[..|places| - 1], name)
  }

  /** Each name with the last of the entries that bear it. */
  ghost predicate LastOfEach(pTypes: map<string, PType>, items: seq<PType>) {
    && (forall j :: 0 <= j < |items| ==> items[j].name in pTypes)
    && (forall name :: name in pTypes ==> exists i :: IsLast(items, i, name) && pTypes[name] == items[i])
  }

  predicate IsLast(items: seq<PType>, i: int, name: string) {
    0 <= i < |items| && items[i].name == name && forall j :: i < j < |items| ==> items[j].name != name
  }

  /** The map by bare name that load builds from the entries read. */
  method ByName(items: seq<PType>) returns (pTypes: map<string, PType>)
    ensures LastOfEach(pTypes, items)
  {
    pTypes := map[];
    for i := 0 to |items|
      invariant LastOfEach(pTypes, items[..i])
    {
      OneMoreNamed(pTypes, items[..i], items[i]);
      assert items[..i + 1] == items[..i] + [items[i]];
      pTypes := pTypes[items[i].name := items[i]];
    }
    assert items[..|items|] == items;
  }

  lemma {:induction false} OneMoreNamed(pTypes: map<string, PType>, items: seq<PType>, e: PType)
    requires LastOfEach(pTypes, items)
    ensures LastOfEach(pTypes[e.name := e], items + [e])
  {
    var more, after := items + [e], pTypes[e.name := e];
    forall name | name in after
      ensures exists i :: IsLast(more, i, name) && after[name] == more[i]
    {
      if name == e.name {
        assert IsLast(more, |items|, name);
      } else {
        var i :| IsLast(items, i, name) && pTypes[name] == items[i];
        assert IsLast(more, i, name);
      }
    }
  }

  /** The leaf is to be restored from entry number `i`. */
  predicate FromEntry(p: Place, items: seq<PType>, i: int) {
    Restorable(p) && IsLast(items, i, p.name) && items[i].typeHierarchy == p.hierarchy
  }

  /** An encrypted entry that a leaf is restored from has the characters of its nonce, if the key is such
      that they are sliced off. */
  ghost predicate LastReadable(places: seq<Place>, items: seq<PType>, key: string) {
    forall k, i :: 0 <= k < |places| && FromEntry(places[k], items, i) ==> Readable(items[i], key)
  }

  lemma {:induction false} LastsReadable(places: seq<Place>, items: seq<PType>, pTypes: map<string, PType>, key: string)
    requires LastReadable(places, items, key) && LastOfEach(pTypes, items)
    ensures AllReadable(places, pTypes, key)
  {
    forall k | 0 <= k < |places|
      ensures CanRestore(places[k], pTypes, key)
    {
      if Takes(places[k], pTypes) {
        var i :| IsLast(items, i, places[k].name) && pTypes[places[k].name] == items[i];
        assert FromEntry(places[k], items, i);
      }
    }
  }

  /** Restoring a component of the named type from the entries read for it. */
  method Load(items: seq<PType>, fields: seq<Field>, typeName: string, vault: Vault, ghost was: seq<Value>)
    returns (ghost pTypes: map<string, PType>)
    requires LastReadable(Places(fields, typeName), items, vault.key)
    requires Distinct(Places(fields, typeName)) && Hold(Places(fields, typeName), was)
    modifies Cells(Places(fields, typeName))
    ensures LastOfEach(pTypes, items) && AllReadable(Places(fields, typeName), pTypes, vault.key)
    ensures Hold(Places(fields, typeName), RestoredAll(Places(fields, typeName), was, pTypes, vault))
  {
    pTypes := map[];
    if |items| <= 0 {
      return;
    }
    PlacesAllocated(fields, typeName);
    var pTypeMap := ByName(items);
    LastsReadable(Places(fields, typeName), items, pTypeMap, vault.key);
    UnmarshalType(fields, typeName, vault, pTypeMap, was);
    pTypes := pTypeMap;
  }

  // ---------- what comes back ----------

  lemma {:induction false} EntriesReadable(items: seq<PType>, source: seq<Place>, values: seq<Value>, vault: Vault)
    requires Entries(items, source, values, vault) && Ideal(vault.cipher)
    ensures forall e :: e in items ==> Readable(e, vault.key)
  {
    forall i | 0 <= i < |items|
      ensures Readable(items[i], vault.key)
    {
      EntryComesBack(source[i], values[i], vault, i);
    }
  }

  /** A leaf takes the last entry of its name if the type hierarchies match, and is left alone otherwise. */
  lemma {:induction false} TakesLastEntry(items: seq<PType>, source: seq<Place>, values: seq<Value>, vault: Vault,
                       pTypes: map<string, PType>, p: Place, was: Value)
    requires Entries(items, source, values, vault) && Ideal(vault.cipher)
    requires LastOfEach(pTypes, items) && CanRestore(p, pTypes, vault.key) && Restorable(p)
    ensures
      var at := LastNamed(source, p.name);
      Restored(p, was, pTypes, vault) ==
        if at.Some? && source[at.value].hierarchy == p.hierarchy
        then Parse(p.kind, Back(source[at.value], values[at.value], vault, at.value), was)
        else was
  {
    EntriesNames(items, source, values, vault);
    LastEntryOf(items, source, pTypes, p.name);
    TakesEntry(LastNamed(source, p.name), source, values, vault, pTypes, p, was);
  }

  lemma {:induction false} TakesEntry(at: Option<nat>, source: seq<Place>, values: seq<Value>, vault: Vault,
                   pTypes: map<string, PType>, p: Place, was: Value)
    requires |values| == |source| && Ideal(vault.cipher) && CanRestore(p, pTypes, vault.key) && Restorable(p)
    requires p.name in pTypes <==> at.Some?
    requires at.Some? ==> at.value < |source|
    requires at.Some? ==>
               var from := source[at.value];
               pTypes[p.name] == EntryOf(from, Show(from.format, values[at.value]), vault, at.value)
    ensures Restored(p, was, pTypes, vault) ==
            if at.Some? && source[at.value].hierarchy == p.hierarchy
            then Parse(p.kind, Back(source[at.value], values[at.value], vault, at.value), was)
            else was
  {
    if at.Some? {
      var e := pTypes[p.name];
      EntryComesBack(source[at.value], values[at.value], vault, at.value);
      assert e.typeHierarchy == source[at.value].hierarchy;
      RestoredBy(p, was, pTypes, vault, e, Back(source[at.value], values[at.value], vault, at.value));
    }
  }

  lemma {:induction false} RestoredBy(p: Place, was: Value, pTypes: map<string, PType>, vault: Vault, e: PType,
                                      text: string)
    requires p.name in pTypes && pTypes[p.name] == e && CanRestore(p, pTypes, vault.key) && Restorable(p)
    requires Readable(e, vault.key) && TextOf(e, vault) == text
    ensures Restored(p, was, pTypes, vault) == if e.typeHierarchy == p.hierarchy then Parse(p.kind, text, was) else was
  {
  }

  lemma {:induction false} LastEntryOf(items: seq<PType>, source: seq<Place>, pTypes: map<string, PType>, name: string)
    requires LastOfEach(pTypes, items)
    requires |items| == |source| && forall j :: 0 <= j < |items| ==> items[j].name == source[j].name
    ensures name in pTypes <==> LastNamed(source, name).Some?
    ensures name in pTypes ==> pTypes[name] == items[LastNamed(source, name).value]
  {
    if name in pTypes {
      var i :| IsLast(items, i, name) && pTypes[name] == items[i];
      LastNamedIs(source, name, i);
    }
  }

  lemma {:induction false} LastNamedIs(source: seq<Place>, name: string, i: nat)
    requires i < |source| && source[i].name == name
    requires forall j :: i < j < |source| ==> source[j].name != name
    ensures LastNamed(source, name) == Some(i)
  {
    var at := LastNamed(source, name);
    assert at.Some?;
    assert at.value <= i <= at.value;
  }

  lemma {:induction false} EntriesNames(items: seq<PType>, source: seq<Place>, values: seq<Value>, vault: Vault)
    requires Entries(items, source, values, vault)
    ensures |items| == |source| && forall j :: 0 <= j < |items| ==> items[j].name == source[j].name
  {
    forall j | 0 <= j < |items|
      ensures items[j].name == source[j].name
    {
      var e := EntryOf(source[j], Show(source[j].format, values[j]), vault, j);
      assert items[j] == e;
    }
  }

  /** Two structs of one type: the same fields, apart from where the values are kept. */
  ghost predicate SameType(a: seq<Field>, b: seq<Field>)
    decreases a
  {
    |a| == |b| && forall i :: 0 <= i < |a| ==> SameField(a[i], b[i])
  }

  ghost predicate SameField(a: Field, b: Field)
    decreases a
  {
    a.name == b.name && a.typeName == b.typeName &&
    match (a, b)
    case (Leaf(_, _, d, k, f, _), Leaf(_, _, e, l, g, _)) => d == e && k == l && f == g
    case (Struct(_, _, f), Struct(_, _, g)) => SameType(f, g)
    case _ => false
  }

  /** Places that differ in their cells only. */
  ghost predicate Match(a: seq<Place>, b: seq<Place>) {
    |a| == |b| && forall i :: 0 <= i < |a| ==> a[i].(cell := b[i].cell) == b[i]
  }

  lemma {:induction false} SameTypeSamePlaces(a: seq<Field>, b: seq<Field>, hierarchy: string)
    requires SameType(a, b)
    ensures Match(Places(a, hierarchy), Places(b, hierarchy))
    decreases a
  {
    if a != [] {
      var n := |a| - 1;
      SameTypeSamePlaces(a[..n], b[..n], hierarchy);
      SameFieldSamePlaces(a[n], b[n], hierarchy);
    }
  }

  lemma {:induction false} SameFieldSamePlaces(a: Field, b: Field, hierarchy: string)
    requires SameField(a, b)
    ensures Match(PlacesOf(a, hierarchy), PlacesOf(b, hierarchy))
    decreases a
  {
    if a.Struct? && a.typeName != "SimpleComponent" {
      SameTypeSamePlaces(a.fields, b.fields, hierarchy + "." + a.typeName);
    }
  }

  ghost predicate UniqueNames(places: seq<Place>) {
    forall j, k :: 0 <= j < k < |places| ==> places[j].name != places[k].name
  }

  /** A leaf that persisting is meant to bring back. */
  predicate Carried(p: Place) { (p.directive == "native" || p.directive == "encrypt") && p.kind != OtherKind }

  /** The leaf `p` is brought back, and any other tagged leaf keeps what it had. */
  predicate CameBack(p: Place, v: Value, was: Value, now: Value) { now == if Carried(p) then v else was }

  /** With unique names, a component restored from what another of its type persisted has every leaf back
      that is meant to be, and every other leaf untouched, exactly when the entry of each of these lets its
      value survive: it is no empty string that got encrypted and, if its type has a method to show it,
      what that writes is read as the value. */
  lemma {:induction false} RoundTripExactlyWhen(
      items: seq<PType>, source: seq<Field>, values: seq<Value>, target: seq<Field>, was: seq<Value>,
      typeName: string, vault: Vault, pTypes: map<string, PType>)
    requires SameType(source, target) && UniqueNames(Places(source, typeName))
    requires Entries(items, Places(source, typeName), values, vault) && Ideal(vault.cipher)
    requires |was| == |Places(target, typeName)| && AllFit(values, Places(source, typeName))
    requires LastOfEach(pTypes, items) && AllReadable(Places(target, typeName), pTypes, vault.key)
    ensures |Places(target, typeName)| == |items|
    ensures
      var from, to := Places(source, typeName), Places(target, typeName);
      AllCameBack(to, values, was, RestoredAll(to, was, pTypes, vault)) <==> AllSurvive(from, values, items)
  {
    var from, to := Places(source, typeName), Places(target, typeName);
    SameTypeSamePlaces(source, target, typeName);
    var now := RestoredAll(to, was, pTypes, vault);
    forall k | 0 <= k < |to|
      ensures CameBack(to[k], values[k], was[k], now[k])
              <==> (Carried(from[k]) ==> Survives(from[k], values[k], items[k]))
    {
      assert from[k].(cell := to[k].cell) == to[k];
      assert CanRestore(to[k], pTypes, vault.key);
      OneBack(items, from, values, vault, pTypes, k, to[k], was[k]);
    }
  }

  ghost predicate AllFit(values: seq<Value>, places: seq<Place>) {
    |values| == |places| && forall k :: 0 <= k < |values| ==> Fits(values[k], places[k].kind)
  }

  ghost predicate AllCameBack(places: seq<Place>, values: seq<Value>, was: seq<Value>, now: seq<Value>) {
    && |places| == |values| == |was| == |now|
    && forall k :: 0 <= k < |places| ==> CameBack(places[k], values[k], was[k], now[k])
  }

  ghost predicate AllSurvive(places: seq<Place>, values: seq<Value>, items: seq<PType>) {
    && |places| == |values| == |items|
    && forall k :: 0 <= k < |places| && Carried(places[k]) ==> Survives(places[k], values[k], items[k])
  }

  lemma {:induction false} OneBack(
      items: seq<PType>, source: seq<Place>, values: seq<Value>, vault: Vault,
      pTypes: map<string, PType>, k: nat, p: Place, was: Value)
    requires Entries(items, source, values, vault) && Ideal(vault.cipher) && UniqueNames(source)
    requires LastOfEach(pTypes, items) && CanRestore(p, pTypes, vault.key)
    requires k < |source| && source[k].(cell := p.cell) == p && Fits(values[k], p.kind)
    ensures CameBack(p, values[k], was, Restored(p, was, pTypes, vault))
            <==> (Carried(source[k]) ==> Survives(source[k], values[k], items[k]))
  {
    if Restorable(p) {
      TakesLastEntry(items, source, values, vault, pTypes, p, was);
      LastNamedIs(source, p.name, k);
      assert items[k] == EntryOf(source[k], Show(source[k].format, values[k]), vault, k);
      LeafBack(source[k], values[k], vault, k, was);
    }
  }

  lemma {:induction false} LeafBack(p: Place, v: Value, vault: Vault, at: nat, was: Value)
    requires Ideal(vault.cipher) && Fits(v, p.kind)
    ensures p.kind == OtherKind ==> Parse(p.kind, Back(p, v, vault, at), was) == was
    ensures p.kind != OtherKind ==>
              var e := EntryOf(p, Show(p.format, v), vault, at);
              Parse(p.kind, Back(p, v, vault, at), was) == v <==> Survives(p, v, e)
  {
    EntryComesBack(p, v, vault, at);
    if p.kind != OtherKind {
      LeafRoundTripExactlyWhen(p, v, vault, at, was);
    }
  }

  /** A condition on the leaf alone, whichever encryptions succeed: an encrypted leaf does not show as the
      empty string, and what a method of its type writes is read as the value. */
  predicate Safe(p: Place, v: Value) {
    && (p.directive == "encrypt" ==> Show(p.format, v) != "")
    && (p.format.Some? ==> ReadsAs(Show(p.format, v), p.kind, v))
  }

  ghost predicate AllSafe(places: seq<Place>, values: seq<Value>) {
    |places| == |values| && forall k :: 0 <= k < |values| && Carried(places[k]) ==> Safe(places[k], values[k])
  }

  lemma {:induction false} SafeSurvives(p: Place, v: Value, vault: Vault, at: nat)
    requires Safe(p, v)
    ensures Survives(p, v, EntryOf(p, Show(p.format, v), vault, at))
  {
  }

  /** Without unique names: of two leaves of one name, the earlier one comes back as the later one, if that
      survives, when their type hierarchies are spelled alike, and does not come back at all when not. */
  lemma {:induction false} EarlierNamesakeLoses(
      items: seq<PType>, source: seq<Place>, values: seq<Value>, vault: Vault,
      pTypes: map<string, PType>, j: nat, k: nat, was: Value)
    requires Entries(items, source, values, vault) && Ideal(vault.cipher)
    requires j < k < |source| && Restorable(source[j]) && LastNamed(source, source[j].name) == Some(k)
    requires LastOfEach(pTypes, items) && CanRestore(source[j], pTypes, vault.key)
    requires source[j].kind == source[k].kind != OtherKind && Fits(values[k], source[k].kind)
    ensures source[j].hierarchy != source[k].hierarchy ==> Restored(source[j], was, pTypes, vault) == was
    ensures source[j].hierarchy == source[k].hierarchy ==>
              (Restored(source[j], was, pTypes, vault) == values[k] <==> Survives(source[k], values[k], items[k]))
  {
    TakesLastEntry(items, source, values, vault, pTypes, source[j], was);
    assert items[k] == EntryOf(source[k], Show(source[k].format, values[k]), vault, k);
    LeafBack(source[k], values[k], vault, k, was);
  }

  /** A component of the same type that loads what another one persisted: every leaf that is meant to come
      back does, and every other tagged leaf keeps its value, exactly when the entries let the values
      survive, whichever of the encryptions succeeded. */
  method Restart(source: seq<Field>, target: seq<Field>, typeName: string, vault: Vault,
                 ghost values: seq<Value>, ghost was: seq<Value>)
    returns (ghost items: seq<PType>, ghost now: seq<Value>)
    requires SameType(source, target) && UniqueNames(Places(source, typeName)) && Ideal(vault.cipher)
    requires Hold(Places(source, typeName), values) && AllFit(values, Places(source, typeName))
    requires Distinct(Places(target, typeName)) && Hold(Places(target, typeName), was)
    modifies Cells(Places(target, typeName))
    ensures Entries(items, Places(source, typeName), values, vault) && Hold(Places(target, typeName), now)
    ensures AllCameBack(Places(target, typeName), values, was, now)
            <==> AllSurvive(Places(source, typeName), values, items)
    ensures AllSafe(Places(source, typeName), values) ==> AllCameBack(Places(target, typeName), values, was, now)
  {
    PlacesAllocated(target, typeName);
    var persisted := Persistable(source, typeName, vault, values);
    items := persisted;
    EntriesReadable(items, Places(source, typeName), values, vault);
    ghost var pTypes := Load(persisted, target, typeName, vault, was);
    now := RestoredAll(Places(target, typeName), was, pTypes, vault);
    RoundTripExactlyWhen(items, source, values, target, was, typeName, vault, pTypes);
    AllSafeSurvive(items, Places(source, typeName), values, vault);
  }

  lemma {:induction false} AllSafeSurvive(items: seq<PType>, source: seq<Place>, values: seq<Value>, vault: Vault)
    requires Entries(items, source, values, vault)
    ensures AllSafe(source, values) ==> AllSurvive(source, values, items)
  {
    if AllSafe(source, values) {
      forall k | 0 <= k < |values| && Carried(source[k])
        ensures Survives(source[k], values[k], items[k])
      {
        assert items[k] == EntryOf(source[k], Show(source[k].format, values[k]), vault, k);
        SafeSurvives(source[k], values[k], vault, k);
      }
    }
  }
}
