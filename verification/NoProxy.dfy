/**
  The merge of `NO_PROXY` and `no_proxy` for a host client: what the user had, then every name of the
  loopback host. Whether a text is a loopback address is a parameter.
*/
module NoProxy {
  import opened Wrappers
  import opened Text
  import opened ContainerNames

  /** The texts of IP addresses: hex digits, colons and dots, at least one of them. */
  ghost predicate AcceptsAddressesOnly(isLoopbackAddress: string -> bool) {
    forall s | isLoopbackAddress(s) ::
      s != "" && forall i :: 0 <= i < |s| ==> IsAsciiHexDigit(s[i]) || s[i] == ':' || s[i] == '.'
  }

  predicate IsLoopbackHost(host: string, isLoopbackAddress: string -> bool) {
    EqualsIgnoringAsciiCase(host, "localhost") || isLoopbackAddress(host)
  }

  /** `localhost` in any letter case. */
  predicate IsLocalhost(host: string) {
    |host| == 9 && forall i :: 0 <= i < 9 ==> host[i] == "localhost"[i] || host[i] == "LOCALHOST"[i]
  }

  lemma LocalhostIff(host: string)
    ensures EqualsIgnoringAsciiCase(host, "localhost") <==> IsLocalhost(host)
  {
  }

  // ---------------------------------------------------------------- lists without repetitions

  /** The first occurrences, in order. */
  function Unique(entries: seq<string>): seq<string> {
    if entries == [] then []
    else
      var n := |entries| - 1;
      var before := Unique(entries[..n]);
      if entries[n] in before then before else before + [entries[n]]
  }

  predicate HasNoRepeats(entries: seq<string>) {
    forall i, j :: 0 <= i < j < |entries| ==> entries[i] != entries[j]
  }

  /** The first position of an entry. */
  function FirstAt(entries: seq<string>, entry: string): (at: nat)
    requires entry in entries
    ensures at < |entries| && entries[at] == entry && entry !in entries[..at]
  {
    if entry in entries[..|entries| - 1] then
      var at := FirstAt(entries[..|entries| - 1], entry);
      assert entries[..|entries| - 1][..at] == entries[..at];
      at
    else |entries| - 1
  }

  lemma FirstAtIsStable(entries: seq<string>, more: seq<string>, entry: string)
    requires entry in entries
    ensures FirstAt(entries + more, entry) == FirstAt(entries, entry)
  {
    var all := entries + more;
    var a, b := FirstAt(all, entry), FirstAt(entries, entry);
    assert all[b] == entry;
    forall k | 0 <= k < b ensures all[k] != entry {
      assert all[k] == entries[..b][k];
    }
    forall k | 0 <= k < a ensures all[k] != entry {
      assert all[k] == all[..a][k];
    }
  }

  lemma {:induction false} UniqueIsFirstOccurrences(entries: seq<string>)
    ensures HasNoRepeats(Unique(entries))
    ensures forall entry :: entry in Unique(entries) <==> entry in entries
    ensures forall i, j :: 0 <= i < j < |Unique(entries)| ==>
              FirstAt(entries, Unique(entries)[i]) < FirstAt(entries, Unique(entries)[j])
  {
    if entries != [] {
      var n := |entries| - 1;
      var front, last := entries[..n], entries[n];
      assert entries == front + [last];
      UniqueIsFirstOccurrences(front);
      var before, after := Unique(front), Unique(entries);
      forall i, j | 0 <= i < j < |after| ensures FirstAt(entries, after[i]) < FirstAt(entries, after[j]) {
        FirstAtIsStable(front, [last], after[i]);
        if j < |before| {
          FirstAtIsStable(front, [last], after[j]);
        }
      }
    }
  }

  lemma {:induction false} UniqueOfDistinct(entries: seq<string>)
    requires HasNoRepeats(entries)
    ensures Unique(entries) == entries
  {
    if entries != [] {
      var n := |entries| - 1;
      UniqueOfDistinct(entries[..n]);
      assert entries[..n] + [entries[n]] == entries;
    }
  }

  lemma {:induction false} UniqueAbsorbs(entries: seq<string>, more: seq<string>)
    requires HasNoRepeats(entries)
    requires forall i :: 0 <= i < |more| ==> more[i] in entries
    ensures Unique(entries + more) == entries
  {
    if more == [] {
      assert entries + more == entries;
      UniqueOfDistinct(entries);
    } else {
      var n := |more| - 1;
      UniqueAbsorbs(entries, more[..n]);
      assert (entries + more)[..|entries| + n] == entries + more[..n];
    }
  }

  lemma UniqueOneMore(front: seq<string>, middle: seq<string>, entry: string)
    ensures Unique(front + (middle + [entry])) ==
            if entry in Unique(front + middle) then Unique(front + middle) else Unique(front + middle) + [entry]
  {
    var all := front + (middle + [entry]);
    assert all[..|all| - 1] == front + middle;
    assert all[|all| - 1] == entry;
  }

  /** `push_unique` */
  method PushUnique(entries: seq<string>, entry: string) returns (r: seq<string>)
    ensures r == if entry in entries then entries else entries + [entry]
  {
    r := if entry in entries then entries else entries + [entry];
  }

  // ---------------------------------------------------------------- the merge

  /** The parts of a list, trimmed; empty ones are dropped. */
  function Trimmed(parts: seq<string>): seq<string> {
    if parts == [] then []
    else
      var n := |parts| - 1;
      var before, entry := Trimmed(parts[..n]), Trim(parts[n]);
      if entry == "" then before else before + [entry]
  }

  function EntriesOf(value: Option<string>): seq<string> {
    match value case None => [] case Some(text) => Trimmed(Split(text, ','))
  }

  /** An entry with the white space around it, or white space alone. */
  datatype PaddedEntry = PaddedEntry(before: string, entry: string, after: string)
  {
    predicate Valid() {
      IsBlank(before) && IsBlank(after) && (entry == "" || IsEntry(entry))
    }

    function Text(): string { before + entry + after }
  }

  function TextsOf(items: seq<PaddedEntry>): seq<string> {
    seq(|items|, i requires 0 <= i < |items| => items[i].Text())
  }

  /** The entries that are not empty, in order. */
  function NamedIn(items: seq<PaddedEntry>): seq<string> {
    if items == [] then []
    else
      var n := |items| - 1;
      if items[n].entry == "" then NamedIn(items[..n]) else NamedIn(items[..n]) + [items[n].entry]
  }

  lemma {:induction false} TrimmedTexts(items: seq<PaddedEntry>)
    requires forall i :: 0 <= i < |items| ==> items[i].Valid()
    ensures Trimmed(TextsOf(items)) == NamedIn(items)
  {
    if items != [] {
      var n := |items| - 1;
      TrimmedTexts(items[..n]);
      assert TextsOf(items)[..n] == TextsOf(items[..n]);
      TrimOfPadded(items[n].before, items[n].entry, items[n].after);
    }
  }

  lemma TextHasNoComma(item: PaddedEntry)
    requires item.Valid()
    ensures ',' !in item.Text()
  {
    assert ',' !in item.before && ',' !in item.after && ',' !in item.entry;
  }

  /** Every entry of a list is read, whatever white space is around it, and nothing else is. */
  lemma PaddedEntriesAreRead(items: seq<PaddedEntry>)
    requires items != [] && forall i :: 0 <= i < |items| ==> items[i].Valid()
    ensures EntriesOf(Some(Join(TextsOf(items), ','))) == NamedIn(items)
  {
    TrimmedTexts(items);
    hide Trimmed, NamedIn, Split, Join;
    var texts := TextsOf(items);
    forall i | 0 <= i < |texts| ensures ',' !in texts[i] {
      TextHasNoComma(items[i]);
    }
    SplitJoin(texts, ',');
  }

  /** And every value is such a list. */
  lemma EveryValueIsPadded(value: string) returns (items: seq<PaddedEntry>)
    ensures items != [] && forall i :: 0 <= i < |items| ==> items[i].Valid()
    ensures value == Join(TextsOf(items), ',')
  {
    JoinSplit(value, ',');
    items := PaddedParts(Split(value, ','));
  }

  lemma {:induction false} PaddedParts(parts: seq<string>) returns (items: seq<PaddedEntry>)
    requires forall i :: 0 <= i < |parts| ==> ',' !in parts[i]
    ensures |items| == |parts| && forall i :: 0 <= i < |items| ==> items[i].Valid()
    ensures TextsOf(items) == parts
  {
    items := [];
    if parts != [] {
      var n := |parts| - 1;
      var front := PaddedParts(parts[..n]);
      var last := PaddedPart(parts[n]);
      items := front + [last];
      assert TextsOf(items) == TextsOf(front) + [last.Text()];
      assert parts == parts[..n] + [parts[n]];
    }
  }

  lemma PaddedPart(part: string) returns (item: PaddedEntry)
    requires ',' !in part
    ensures item.Valid() && item.Text() == part
  {
    var before, after := TrimParts(part);
    TrimAddsNothing(part, ',');
    hide Trim;
    item := PaddedEntry(before, Trim(part), after);
  }

  const LOOPBACK_NAMES := ["127.0.0.1", "localhost", "::1"]

  function AllEntries(upper: Option<string>, lower: Option<string>, host: string): seq<string> {
    EntriesOf(upper) + EntriesOf(lower) + (LOOPBACK_NAMES + [host])
  }

  function Merged(upper: Option<string>, lower: Option<string>, host: string, isLoopbackAddress: string -> bool)
    : Option<string>
  {
    if IsLoopbackHost(host, isLoopbackAddress) then Some(Join(Unique(AllEntries(upper, lower, host)), ',')) else None
  }

  /** The list after the first parts of a value have been pushed onto the entries before it. */
  function Pushed(before: seq<string>, parts: seq<string>): seq<string> {
    Unique(before + Trimmed(parts))
  }

  lemma PushedOneMore(before: seq<string>, parts: seq<string>, i: nat)
    requires i < |parts|
    ensures var entry, list := Trim(parts[i]), Pushed(before, parts[..i]);
            Pushed(before, parts[..i + 1]) == if entry == "" || entry in list then list else list + [entry]
  {
    assert parts[..i + 1][..i] == parts[..i];
    hide Unique, Trim;
    UniqueOneMore(before, Trimmed(parts[..i]), Trim(parts[i]));
  }

  lemma PushedAll(before: seq<string>, parts: seq<string>)
    ensures Pushed(before, parts[..0]) == Unique(before)
    ensures Pushed(before, parts[..|parts|]) == Unique(before + Trimmed(parts))
  {
    hide Unique;
    assert before + Trimmed([]) == before;
    assert parts[..|parts|] == parts;
  }

  method PushParts(entries: seq<string>, value: Option<string>, ghost before: seq<string>) returns (r: seq<string>)
    requires entries == Unique(before)
    ensures r == Unique(before + EntriesOf(value))
  {
    hide Trim, Trimmed, Split, Unique, Pushed;
    r := entries;
    if value.None? {
      assert before + [] == before;
      return;
    }
    var parts := Split(value.value, ',');
    PushedAll(before, parts);
    for i := 0 to |parts|
      invariant r == Pushed(before, parts[..i])
    {
      PushedOneMore(before, parts, i);
      var entry := Trim(parts[i]);
      if entry != "" {
        r := PushUnique(r, entry);
      }
    }
  }

  /** `merge_loopback_no_proxy` */
  method MergeLoopbackNoProxy(upper: Option<string>, lower: Option<string>, host: string,
                              isLoopbackAddress: string -> bool) returns (r: Option<string>)
    ensures r == Merged(upper, lower, host, isLoopbackAddress)
    ensures r.Some? <==> isLoopbackAddress(host) || IsLocalhost(host)
  {
    LocalhostIff(host);
    hide Unique, EntriesOf;
    if !IsLoopbackHost(host, isLoopbackAddress) {
      return None;
    }
    assert Unique([]) == [] by {
      NothingIsUnique();
    }
    var entries := PushParts([], upper, []);
    assert [] + EntriesOf(upper) == EntriesOf(upper);
    entries := PushParts(entries, lower, EntriesOf(upper));
    ghost var users := EntriesOf(upper) + EntriesOf(lower);
    var names := LOOPBACK_NAMES + [host];
    assert users + [] == users;
    for i := 0 to |names|
      invariant entries == Unique(users + names[..i])
    {
      assert names[..i + 1] == names[..i] + [names[i]];
      UniqueOneMore(users, names[..i], names[i]);
      entries := PushUnique(entries, names[i]);
    }
    assert names[..|names|] == names;
    r := Some(Join(entries, ','));
  }

  lemma NothingIsUnique()
    ensures Unique([]) == []
  {
  }

  // ---------------------------------------------------------------- what the merged value means

  /** An entry as a reader of the list sees it again. */
  predicate IsEntry(entry: string) {
    entry != "" && ',' !in entry && !IsWhitespace(entry[0]) && !IsWhitespace(entry[|entry| - 1])
  }

  predicate AreEntries(entries: seq<string>) {
    forall i :: 0 <= i < |entries| ==> IsEntry(entries[i])
  }

  lemma TrimIsEntry(part: string)
    requires ',' !in part
    ensures Trim(part) == "" || IsEntry(Trim(part))
  {
    hide Trim;
    TrimAddsNothing(part, ',');
  }

  lemma {:induction false} TrimmedAreEntries(parts: seq<string>)
    requires forall i :: 0 <= i < |parts| ==> ',' !in parts[i]
    ensures AreEntries(Trimmed(parts))
  {
    hide IsEntry, Trim;
    if parts != [] {
      var n := |parts| - 1;
      TrimmedAreEntries(parts[..n]);
      TrimIsEntry(parts[n]);
    }
  }

  lemma {:induction false} EntriesAreTrimmed(parts: seq<string>)
    requires AreEntries(parts)
    ensures Trimmed(parts) == parts
  {
    if parts != [] {
      var n := |parts| - 1;
      EntriesAreTrimmed(parts[..n]);
      assert IsEntry(parts[n]);
      TrimIsIdentity(parts[n]);
      assert parts[..n] + [parts[n]] == parts;
    }
  }

  lemma HostIsEntry(host: string, isLoopbackAddress: string -> bool)
    requires AcceptsAddressesOnly(isLoopbackAddress) && IsLoopbackHost(host, isLoopbackAddress)
    ensures IsEntry(host)
  {
    if EqualsIgnoringAsciiCase(host, "localhost") {
      forall i | 0 <= i < |host| ensures IsAsciiAlphanumeric(host[i]) {
        assert AsciiLower(host[i]) == AsciiLower("localhost"[i]);
      }
    }
  }

  lemma EntriesOfAreEntries(value: Option<string>)
    ensures AreEntries(EntriesOf(value))
  {
    hide IsEntry, Trimmed;
    if value.Some? {
      TrimmedAreEntries(Split(value.value, ','));
    }
  }

  lemma NamesAreEntries(host: string)
    requires IsEntry(host)
    ensures AreEntries(LOOPBACK_NAMES + [host])
  {
    assert IsEntry("127.0.0.1") && IsEntry("localhost") && IsEntry("::1");
    hide IsEntry;
  }

  lemma AllAreEntries(upper: Option<string>, lower: Option<string>, host: string)
    requires IsEntry(host)
    ensures AreEntries(AllEntries(upper, lower, host))
  {
    hide EntriesOf, IsEntry;
    EntriesOfAreEntries(upper);
    EntriesOfAreEntries(lower);
    NamesAreEntries(host);
  }

  /**
    Splitting the merged value gives the first occurrences of all entries back: those of the user in
    order, without repetitions, and every name of the loopback host.
  */
  lemma MergedSplitsBack(upper: Option<string>, lower: Option<string>, host: string,
                         isLoopbackAddress: string -> bool)
    requires AcceptsAddressesOnly(isLoopbackAddress) && IsLoopbackHost(host, isLoopbackAddress)
    ensures var all := AllEntries(upper, lower, host);
            var split := Split(Merged(upper, lower, host, isLoopbackAddress).value, ',');
            && split == Unique(all) && HasNoRepeats(split)
            && (forall entry :: entry in split <==> entry in all)
            && (forall i, j :: 0 <= i < j < |split| ==> FirstAt(all, split[i]) < FirstAt(all, split[j]))
            && AreEntries(split)
            && "127.0.0.1" in split && "localhost" in split && "::1" in split && host in split
  {
    var all := AllEntries(upper, lower, host);
    HostIsEntry(host, isLoopbackAddress);
    hide AllEntries, Unique, IsEntry, AcceptsAddressesOnly, Split, Join, HasNoRepeats, AreEntries;
    AllAreEntries(upper, lower, host);
    UniqueIsFirstOccurrences(all);
    LoopbackNamesAreListed(upper, lower, host);
    JoinOfEntriesSplits(all);
  }

  lemma JoinOfEntriesSplits(all: seq<string>)
    requires AreEntries(all) && all != []
    ensures AreEntries(Unique(all)) && Split(Join(Unique(all), ','), ',') == Unique(all)
  {
    UniqueIsFirstOccurrences(all);
    hide Unique, IsEntry, Split, Join, HasNoRepeats;
    var unique := Unique(all);
    assert all[0] in unique;
    forall i | 0 <= i < |unique| ensures IsEntry(unique[i]) && ',' !in unique[i] {
      assert unique[i] in all;
      EntryHasNoComma(unique[i]);
    }
    SplitJoin(unique, ',');
  }

  lemma EntryHasNoComma(entry: string)
    requires IsEntry(entry)
    ensures ',' !in entry
  {
  }

  lemma LoopbackNamesAreListed(upper: Option<string>, lower: Option<string>, host: string)
    ensures var all := AllEntries(upper, lower, host);
            "127.0.0.1" in all && "localhost" in all && "::1" in all && host in all
  {
    hide EntriesOf;
    var users := EntriesOf(upper) + EntriesOf(lower);
    var all := AllEntries(upper, lower, host);
    assert all == users + (LOOPBACK_NAMES + [host]);
    assert all[|users|] == "127.0.0.1" && all[|users| + 1] == "localhost";
    assert all[|users| + 2] == "::1" && all[|users| + 3] == host;
  }

  /** Adding the names to a list that is complete already, or to two copies of it, gives that list. */
  lemma UniqueOfComplete(users: seq<string>, host: string, entries: seq<string>)
    requires HasNoRepeats(entries)
    requires "127.0.0.1" in entries && "localhost" in entries && "::1" in entries && host in entries
    requires users == entries || users == entries + entries
    ensures Unique(users + (LOOPBACK_NAMES + [host])) == entries
  {
    var names := LOOPBACK_NAMES + [host];
    assert forall i :: 0 <= i < |names| ==> names[i] in entries;
    hide Unique, HasNoRepeats;
    if users == entries {
      UniqueAbsorbs(entries, names);
    } else {
      UniqueAbsorbs(entries, entries + names);
      assert users + names == entries + (entries + names);
    }
  }

  lemma MergeOfComplete(upper: Option<string>, lower: Option<string>, host: string, entries: seq<string>,
                        isLoopbackAddress: string -> bool)
    requires IsLoopbackHost(host, isLoopbackAddress) && HasNoRepeats(entries)
    requires "127.0.0.1" in entries && "localhost" in entries && "::1" in entries && host in entries
    requires var users := EntriesOf(upper) + EntriesOf(lower); users == entries || users == entries + entries
    ensures Merged(upper, lower, host, isLoopbackAddress) == Some(Join(entries, ','))
  {
    hide EntriesOf, IsLoopbackHost, Unique, Join, HasNoRepeats;
    UniqueOfComplete(EntriesOf(upper) + EntriesOf(lower), host, entries);
  }

  lemma SplitAgain(merged: string, split: seq<string>)
    requires split == Split(merged, ',') && AreEntries(split)
    ensures EntriesOf(Some(merged)) == split
    ensures EntriesOf(Some(merged)) + EntriesOf(None) == split && EntriesOf(None) + EntriesOf(Some(merged)) == split
  {
    hide Split, Trimmed, AreEntries;
    EntriesAreTrimmed(split);
  }

  /** Merging the result again changes nothing, whichever of the two variables it is read from. */
  lemma MergingIsIdempotent(upper: Option<string>, lower: Option<string>, host: string,
                            isLoopbackAddress: string -> bool)
    requires AcceptsAddressesOnly(isLoopbackAddress) && IsLoopbackHost(host, isLoopbackAddress)
    ensures var merged := Merged(upper, lower, host, isLoopbackAddress);
            && Merged(merged, None, host, isLoopbackAddress) == merged
            && Merged(None, merged, host, isLoopbackAddress) == merged
            && Merged(merged, merged, host, isLoopbackAddress) == merged
  {
    MergedIsJoined(upper, lower, host, isLoopbackAddress);
    hide AcceptsAddressesOnly, IsLoopbackHost, Unique, Split, Join, Trimmed, HasNoRepeats, IsEntry, AllEntries,
         EntriesOf, Merged, AreEntries;
    MergedSplitsBack(upper, lower, host, isLoopbackAddress);
    var merged := Merged(upper, lower, host, isLoopbackAddress);
    var split := Split(merged.value, ',');
    SplitAgain(merged.value, split);
    MergeOfComplete(merged, None, host, split, isLoopbackAddress);
    MergeOfComplete(None, merged, host, split, isLoopbackAddress);
    MergeOfComplete(merged, merged, host, split, isLoopbackAddress);
  }

  lemma MergedIsJoined(upper: Option<string>, lower: Option<string>, host: string, isLoopbackAddress: string -> bool)
    requires AcceptsAddressesOnly(isLoopbackAddress) && IsLoopbackHost(host, isLoopbackAddress)
    ensures var merged := Merged(upper, lower, host, isLoopbackAddress);
            merged.Some? && merged.value == Join(Split(merged.value, ','), ',')
  {
    hide AcceptsAddressesOnly, IsLoopbackHost, Unique, Split, Join, HasNoRepeats, AreEntries, AllEntries;
    MergedSplitsBack(upper, lower, host, isLoopbackAddress);
  }
}
