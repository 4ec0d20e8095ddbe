/** `CompaniesHouseClient._format_address`. */
module Address {
  import opened Wrappers
  import opened Text

  /** The address keys, in the order their values are joined. */
  const AddressKeys: seq<string> := ["address_line_1", "address_line_2", "locality", "region", "postal_code", "country"]

  /** `address_dict.get(key, '')`. */
  function Part(address: map<string, string>, key: string): string {
    if key in address then address[key] else ""
  }

  /** The non-empty parts among the values of `keys`, in key order. */
  function PresentParts(address: map<string, string>, keys: seq<string>): (parts: seq<string>)
    ensures |parts| <= |keys|
    ensures forall k :: 0 <= k < |parts| ==> parts[k] != ""
    ensures forall key :: key in keys && Part(address, key) != "" ==> Part(address, key) in parts
    ensures forall p :: p in parts ==> exists key :: key in keys && Part(address, key) == p
  {
    if keys == [] then []
    else
      var rest := PresentParts(address, keys[1..]);
      var part := Part(address, keys[0]);
      if part == "" then rest else [part] + rest
  }

  /** Parts keep the order of their keys: the filter distributes over concatenation of key lists. */
  lemma {:induction false} PresentPartsAppend(address: map<string, string>, keys1: seq<string>, keys2: seq<string>)
    ensures PresentParts(address, keys1 + keys2) == PresentParts(address, keys1) + PresentParts(address, keys2)
  {
    if keys1 == [] {
      assert keys1 + keys2 == keys2;
    } else {
      assert (keys1 + keys2)[1..] == keys1[1..] + keys2;
      PresentPartsAppend(address, keys1[1..], keys2);
    }
  }

  /** Joining non-empty parts gives the empty string exactly when there are no parts. */
  lemma {:induction false} JoinEmptyIff(parts: seq<string>, sep: string)
    requires forall k :: 0 <= k < |parts| ==> parts[k] != ""
    ensures Join(parts, sep) == "" <==> parts == []
  {
    if |parts| > 1 {
      assert |Join(parts, sep)| >= |parts[0]|;
    }
  }

  /** Joining one more part appends the separator and that part: one separator between neighbours. */
  lemma {:induction false} JoinAppend(parts: seq<string>, sep: string, p: string)
    requires parts != []
    ensures Join(parts + [p], sep) == Join(parts, sep) + sep + p
  {
    if |parts| == 1 {
      assert (parts + [p])[1..] == [p];
    } else {
      assert (parts + [p])[1..] == parts[1..] + [p];
      JoinAppend(parts[1..], sep, p);
      AppendAssoc(parts[0] + sep, Join(parts[1..], sep) + sep, p);
      AppendAssoc(parts[0] + sep, Join(parts[1..], sep), sep);
    }
  }

  /** The joined text is as long as the parts plus one separator between neighbours. */
  lemma {:induction false} JoinLength(parts: seq<string>, sep: string)
    requires parts != []
    ensures |Join(parts, sep)| == SumLengths(parts) + (|parts| - 1) * |sep|
  {
    if |parts| > 1 {
      JoinLength(parts[1..], sep);
    }
  }

  function SumLengths(parts: seq<string>): nat {
    if parts == [] then 0 else |parts[0]| + SumLengths(parts[1..])
  }

  /**
   * `_format_address`: the empty string for a missing or empty mapping,
   * otherwise the non-empty parts joined with ", ".
   */
  function FormatAddress(address: Option<map<string, string>>): (text: string)
    ensures text == "" <==> address.None? || forall key :: key in AddressKeys ==> Part(address.value, key) == ""
    ensures address.Some? ==> text == Join(PresentParts(address.value, AddressKeys), ", ")
  {
    if address.None? || address.value == map[] then
      assert address.Some? ==> PresentParts(address.value, AddressKeys) == [] by {
        if address.Some? { NoPartsOfEmpty(AddressKeys); }
      }
      ""
    else
      var parts := PresentParts(address.value, AddressKeys);
      JoinEmptyIff(parts, ", ");
      assert parts != [] ==> parts[0] in parts;
      Join(parts, ", ")
  }

  lemma {:induction false} NoPartsOfEmpty(keys: seq<string>)
    ensures PresentParts(map[], keys) == []
  {
    if keys != [] {
      NoPartsOfEmpty(keys[1..]);
    }
  }
}
