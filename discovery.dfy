/** Computer discovery on the main page of the three front-ends: the list of
  * streaming computers shown in the picker, merged from the manually added
  * computers, the mDNS responses that advertise the streaming service, and
  * the last paired computer kept in the roaming settings. The mDNS browse
  * itself is a parameter: the responses, or `None` when the browse or the
  * resolve threw. Network availability is a parameter too. */
module Discovery {
  import opened Common
  import opened Decimal
  import opened RoamingSettings

  /** A `Computer`; either field can be null when read back from the settings. */
  datatype Computer = Computer(name: Option<string>, ipAddress: Option<string>)

  /** An entry of the picker list. The two placeholders are single objects
    * compared by reference, so no computer ever equals them. */
  datatype Entry = NotFound | NoNetwork | Pc(computer: Computer)

  const NOT_FOUND_NAME: string := "No Computers Found"
  const NO_NETWORK_NAME: string := "Network Unavailable"

  /** What the picker shows for an entry. */
  function NameOf(e: Entry): (name: Option<string>)
    ensures !e.Pc? ==> name.Some?
  {
    match e
    case NotFound => Some(NOT_FOUND_NAME)
    case NoNetwork => Some(NO_NETWORK_NAME)
    case Pc(c) => c.name
  }

  /** `IpAddress` of an entry; the placeholders have none. */
  function IpOf(e: Entry): (ip: Option<string>)
    ensures !e.Pc? ==> ip.None?
  {
    if e.Pc? then e.computer.ipAddress else None
  }

  /** `list.Exists(x => x.IpAddress == ip)`. */
  predicate HasIp(list: seq<Entry>, ip: Option<string>)
  {
    exists i :: 0 <= i < |list| && IpOf(list[i]) == ip
  }

  /** No two entries share an address. */
  predicate DistinctIps(list: seq<Entry>)
  {
    forall i, j :: 0 <= i < j < |list| ==> IpOf(list[i]) != IpOf(list[j])
  }

  /** One mDNS answer: its display name, address and advertised services. */
  datatype Response = Response(displayName: string, ipAddress: string, services: set<string>)

  const NVSTREAM_SERVICE: string := "_nvstream._tcp.local."

  /** The computers of the responses that advertise the streaming service, in order. */
  function Nvstream(responses: seq<Response>): (pcs: seq<Computer>)
    ensures |pcs| <= |responses|
    ensures forall p :: p in pcs ==>
              exists r :: r in responses && NVSTREAM_SERVICE in r.services && p == Computer(Some(r.displayName), Some(r.ipAddress))
    decreases |responses|
  {
    if |responses| == 0 then []
    else
      var init := responses[..|responses| - 1];
      var r := responses[|responses| - 1];
      var rest := Nvstream(init);
      assert forall x :: x in init ==> x in responses;
      if NVSTREAM_SERVICE in r.services then rest + [Computer(Some(r.displayName), Some(r.ipAddress))] else rest
  }

  /** Every response that advertises the streaming service is offered. */
  lemma {:induction false} NvstreamCovers(responses: seq<Response>)
    ensures forall r :: r in responses && NVSTREAM_SERVICE in r.services ==>
              Computer(Some(r.displayName), Some(r.ipAddress)) in Nvstream(responses)
    decreases |responses|
  {
    if |responses| > 0 {
      var init := responses[..|responses| - 1];
      NvstreamCovers(init);
      assert responses == init + [responses[|responses| - 1]];
    }
  }

  /** Adds `pc` at the end unless some entry already has its address. */
  function AddIfAbsent(list: seq<Entry>, pc: Computer): (r: seq<Entry>)
    ensures HasIp(r, pc.ipAddress)
    ensures HasIp(list, pc.ipAddress) ==> r == list
    ensures !HasIp(list, pc.ipAddress) ==> r == list + [Pc(pc)]
  {
    if HasIp(list, pc.ipAddress) then list
    else
      assert IpOf((list + [Pc(pc)])[|list|]) == pc.ipAddress;
      list + [Pc(pc)]
  }

  /** `AddIfAbsent` of each computer in turn. */
  function AddAll(list: seq<Entry>, pcs: seq<Computer>): (r: seq<Entry>)
    ensures |list| <= |r| <= |list| + |pcs| && r[..|list|] == list
    decreases |pcs|
  {
    if |pcs| == 0 then list
    else AddIfAbsent(AddAll(list, pcs[..|pcs| - 1]), pcs[|pcs| - 1])
  }

  lemma AddAllStep(list: seq<Entry>, pcs: seq<Computer>, k: nat)
    requires k < |pcs|
    ensures AddAll(list, pcs[..k + 1]) == AddIfAbsent(AddAll(list, pcs[..k]), pcs[k])
  {
    assert pcs[..k + 1][..k] == pcs[..k];
  }

  /** After the merge every computer's address is listed. */
  lemma {:induction false} AddAllCovers(list: seq<Entry>, pcs: seq<Computer>)
    ensures forall p :: p in pcs ==> HasIp(AddAll(list, pcs), p.ipAddress)
    decreases |pcs|
  {
    if |pcs| > 0 {
      var init := pcs[..|pcs| - 1];
      var mid := AddAll(list, init);
      AddAllCovers(list, init);
      forall p | p in init
        ensures HasIp(AddAll(list, pcs), p.ipAddress)
      {
        var i :| 0 <= i < |mid| && IpOf(mid[i]) == p.ipAddress;
        assert AddAll(list, pcs)[..|mid|] == mid;
      }
      assert pcs == init + [pcs[|pcs| - 1]];
    }
  }

  /** The merge only appends computers it was given. */
  lemma {:induction false} AddAllAppendsGiven(list: seq<Entry>, pcs: seq<Computer>)
    ensures forall i :: |list| <= i < |AddAll(list, pcs)| ==>
              AddAll(list, pcs)[i].Pc? && AddAll(list, pcs)[i].computer in pcs
    decreases |pcs|
  {
    if |pcs| > 0 {
      var init := pcs[..|pcs| - 1];
      var pc := pcs[|pcs| - 1];
      AddAllAppendsGiven(list, init);
      var mid := AddAll(list, init);
      var r := AddAll(list, pcs);
      assert r == AddIfAbsent(mid, pc);
      forall i | |list| <= i < |r|
        ensures r[i].Pc? && r[i].computer in pcs
      {
        if i < |mid| {
          assert r[i] == mid[i];
          assert mid[i].computer in init;
        } else {
          assert r[i] == Pc(pc);
        }
      }
    }
  }

  /** The merge never adds a placeholder: their number in the list is kept. */
  lemma {:induction false} AddAllKeepsPlaceholders(list: seq<Entry>, pcs: seq<Computer>, x: Entry)
    requires !x.Pc?
    ensures multiset(AddAll(list, pcs))[x] == multiset(list)[x]
    decreases |pcs|
  {
    if |pcs| > 0 {
      var init := pcs[..|pcs| - 1];
      AddAllKeepsPlaceholders(list, init, x);
      var mid := AddAll(list, init);
      var pc := pcs[|pcs| - 1];
      if !HasIp(mid, pc.ipAddress) {
        assert multiset(mid + [Pc(pc)]) == multiset(mid) + multiset{Pc(pc)};
      }
    }
  }

  /** A list without shared addresses keeps that property through the merge. */
  lemma {:induction false} AddAllDistinct(list: seq<Entry>, pcs: seq<Computer>)
    requires DistinctIps(list)
    ensures DistinctIps(AddAll(list, pcs))
    decreases |pcs|
  {
    if |pcs| > 0 {
      var init := pcs[..|pcs| - 1];
      AddAllDistinct(list, init);
      var mid := AddAll(list, init);
      var pc := pcs[|pcs| - 1];
      if !HasIp(mid, pc.ipAddress) {
        var r := mid + [Pc(pc)];
        forall i, j | 0 <= i < j < |r|
          ensures IpOf(r[i]) != IpOf(r[j])
        {
          if j == |mid| {
            assert IpOf(mid[i]) != pc.ipAddress;
          } else {
            assert r[i] == mid[i] && r[j] == mid[j];
          }
        }
      }
    }
  }

  /** An address listed in a list stays listed in any extension of it. */
  lemma HasIpExtends(s: seq<Entry>, t: seq<Entry>, ip: Option<string>)
    requires HasIp(s, ip) && |s| <= |t| && t[..|s|] == s
    ensures HasIp(t, ip)
  {
    var i :| 0 <= i < |s| && IpOf(s[i]) == ip;
    assert t[i] == s[i];
  }

  function RemoveFirst(list: seq<Entry>, x: Entry): (r: seq<Entry>)
    ensures x !in list ==> r == list
    ensures x in list ==> |r| == |list| - 1 && multiset(r) == multiset(list) - multiset{x}
    decreases |list|
  {
    if |list| == 0 then []
    else if list[0] == x then
      assert list == [list[0]] + list[1..];
      list[1..]
    else
      var rest := RemoveFirst(list[1..], x);
      assert list == [list[0]] + list[1..];
      [list[0]] + rest
  }

  /** Removing one entry keeps every entry different from it. */
  lemma RemoveFirstKeeps(list: seq<Entry>, x: Entry, y: Entry)
    requires y in list && y != x
    ensures y in RemoveFirst(list, x)
  {
    var r := RemoveFirst(list, x);
    if x in list {
      assert multiset(list)[y] > 0;
      assert multiset(r)[y] == multiset(list)[y];
    }
  }

  /** An entry that occurs at most once is gone after its removal. */
  lemma RemoveFirstRemoves(list: seq<Entry>, x: Entry)
    requires multiset(list)[x] <= 1
    ensures x !in RemoveFirst(list, x)
  {
    var r := RemoveFirst(list, x);
    if x in list {
      assert multiset(r)[x] == 0;
    }
  }

  // ----- The last paired computer -----

  const COMPUTER_NAME_KEY: string := "computerName"
  const COMPUTER_IP_KEY: string := "computerIP"

  /** `value as string`. */
  function AsString(v: SettingValue): (s: Option<string>)
    ensures s.Some? <==> v.Text?
  {
    if v.Text? then Some(v.text) else None
  }

  /** `LoadComputer`: null unless both keys are present; a value that is not
    * a string reads as a null field. */
  function LoadComputer(values: map<string, SettingValue>): (c: Option<Computer>)
    ensures c.Some? <==> COMPUTER_NAME_KEY in values && COMPUTER_IP_KEY in values
    ensures c.Some? ==> c.value.name == AsString(values[COMPUTER_NAME_KEY]) &&
                        c.value.ipAddress == AsString(values[COMPUTER_IP_KEY])
  {
    if COMPUTER_NAME_KEY !in values || COMPUTER_IP_KEY !in values then None
    else Some(Computer(AsString(values[COMPUTER_NAME_KEY]), AsString(values[COMPUTER_IP_KEY])))
  }

  /** `SaveComputer`, for a computer with a name and an address. */
  method SaveComputer(settings: SettingsStore, c: Computer)
    requires c.name.Some? && c.ipAddress.Some?
    modifies settings
    ensures settings.values ==
            old(settings.values)[COMPUTER_NAME_KEY := Text(c.name.value)][COMPUTER_IP_KEY := Text(c.ipAddress.value)]
    ensures LoadComputer(settings.values) == Some(c)
  {
    settings.values := settings.values[COMPUTER_NAME_KEY := Text(c.name.value)][COMPUTER_IP_KEY := Text(c.ipAddress.value)];
    SaveLoadRoundTrip(old(settings.values), c);
  }

  /** The settings after a save, as a value. */
  function SavedComputer(values: map<string, SettingValue>, c: Computer): map<string, SettingValue>
    requires c.name.Some? && c.ipAddress.Some?
  {
    values[COMPUTER_NAME_KEY := Text(c.name.value)][COMPUTER_IP_KEY := Text(c.ipAddress.value)]
  }

  /** Loading after saving gives back the saved computer, whatever was stored before. */
  lemma SaveLoadRoundTrip(values: map<string, SettingValue>, c: Computer)
    requires c.name.Some? && c.ipAddress.Some?
    ensures LoadComputer(SavedComputer(values, c)) == Some(c)
  {
    var saved := SavedComputer(values, c);
    assert saved[COMPUTER_NAME_KEY] == Text(c.name.value);
  }

  /** The loop over the manually added computers: each is added unless its
    * address is already listed. */
  method MergeComputers(list: seq<Entry>, pcs: seq<Computer>) returns (r: seq<Entry>)
    ensures r == AddAll(list, pcs)
  {
    r := list;
    var k := 0;
    while k < |pcs|
      invariant 0 <= k <= |pcs|
      invariant r == AddAll(list, pcs[..k])
    {
      var pc := pcs[k];
      AddAllStep(list, pcs, k);
      if !HasIp(r, pc.ipAddress) {
        r := r + [Pc(pc)];
      }
      k := k + 1;
    }
    assert pcs[..k] == pcs;
  }

  /** One more response extends the offered computers by its own, when it
    * advertises the streaming service. */
  lemma NvstreamStep(rs: seq<Response>, j: nat)
    requires j < |rs|
    ensures Nvstream(rs[..j + 1]) ==
            Nvstream(rs[..j]) + if NVSTREAM_SERVICE in rs[j].services
                                then [Computer(Some(rs[j].displayName), Some(rs[j].ipAddress))]
                                else []
  {
    var prefix := rs[..j + 1];
    assert prefix[..|prefix| - 1] == rs[..j];
  }

  /** Merging one more computer is `AddIfAbsent` of it. */
  lemma AddAllSnoc(list: seq<Entry>, pcs: seq<Computer>, pc: Computer)
    ensures AddAll(list, pcs + [pc]) == AddIfAbsent(AddAll(list, pcs), pc)
  {
    var all := pcs + [pc];
    assert all[..|all| - 1] == pcs;
  }

  /** The loop over the mDNS responses: each one advertising the streaming
    * service is added unless its address is already listed. */
  method MergeResponses(list: seq<Entry>, rs: seq<Response>) returns (r: seq<Entry>)
    ensures r == AddAll(list, Nvstream(rs))
  {
    r := list;
    ghost var offered: seq<Computer> := [];
    var j := 0;
    while j < |rs|
      invariant 0 <= j <= |rs|
      invariant offered == Nvstream(rs[..j])
      invariant r == AddAll(list, offered)
    {
      var resp := rs[j];
      NvstreamStep(rs, j);
      if NVSTREAM_SERVICE in resp.services {
        var toAdd := Computer(Some(resp.displayName), Some(resp.ipAddress));
        AddAllSnoc(list, offered, toAdd);
        offered := offered + [toAdd];
        if !HasIp(r, toAdd.ipAddress) {
          r := r + [Pc(toAdd)];
        }
      }
      j := j + 1;
    }
    assert rs[..j] == rs;
  }

  // ----- The online stages common to Moonlight and the shared project -----

  /** The streaming computers that answered, when the browse succeeded. */
  function AddResponses(list: seq<Entry>, responses: Option<seq<Response>>): (r: seq<Entry>)
    ensures |r| >= |list| && r[..|list|] == list
  {
    if responses.Some? then AddAll(list, Nvstream(responses.value)) else list
  }

  /** The last paired computer, when the settings hold one. */
  function AddLast(list: seq<Entry>, last: Option<Computer>): (r: seq<Entry>)
    ensures |r| >= |list| && r[..|list|] == list
  {
    if last.Some? then AddIfAbsent(list, last.value) else list
  }

  /** Neither online stage adds a placeholder. */
  lemma StagesKeepPlaceholders(list: seq<Entry>, responses: Option<seq<Response>>, last: Option<Computer>, x: Entry)
    requires !x.Pc?
    ensures multiset(AddLast(AddResponses(list, responses), last))[x] == multiset(list)[x]
  {
    var found := AddResponses(list, responses);
    if responses.Some? {
      AddAllKeepsPlaceholders(list, Nvstream(responses.value), x);
    }
    if last.Some? && !HasIp(found, last.value.ipAddress) {
      assert multiset(found + [Pc(last.value)]) == multiset(found) + multiset{Pc(last.value)};
    }
  }

  /** After the online stages every streaming computer that answered and the
    * last paired computer are listed by address. */
  lemma StagesCover(list: seq<Entry>, responses: Option<seq<Response>>, last: Option<Computer>)
    ensures var full := AddLast(AddResponses(list, responses), last);
            (responses.Some? ==> forall p :: p in Nvstream(responses.value) ==> HasIp(full, p.ipAddress)) &&
            (last.Some? ==> HasIp(full, last.value.ipAddress))
  {
    var found := AddResponses(list, responses);
    var full := AddLast(found, last);
    if responses.Some? {
      AddAllCovers(list, Nvstream(responses.value));
      forall p | p in Nvstream(responses.value)
        ensures HasIp(full, p.ipAddress)
      {
        HasIpExtends(found, full, p.ipAddress);
      }
    }
  }

  /** The online steps both later pages share once the placeholders are
    * dealt with: the loop over the responses, then the last paired computer. */
  method OnlineStages(list: seq<Entry>, responses: Option<seq<Response>>, last: Option<Computer>) returns (r: seq<Entry>)
    ensures r == AddLast(AddResponses(list, responses), last)
  {
    r := list;
    if responses.Some? {
      r := MergeResponses(r, responses.value);
    }
    if last.Some? && !HasIp(r, last.value.ipAddress) {
      r := r + [Pc(last.value)];
    }
  }

  // ----- Moonlight -----

  /** The list a run of Moonlight's `EnumerateEligibleMachines` builds from
    * the published list, and whether the run counts as a modification. */
  datatype Run = Run(list: seq<Entry>, modified: bool)

  function MoonlightRun(published: seq<Entry>, addedPCs: seq<Computer>, internetAvailable: bool,
                        responses: Option<seq<Response>>, last: Option<Computer>): Run
  {
    var withAdded := AddAll(published, addedPCs);
    if internetAvailable then MoonlightOnline(published, withAdded, responses, last)
    else if |withAdded| == 0 && NoNetwork !in withAdded then Run([NoNetwork], true)
    else Run(withAdded, |withAdded| > |published|)
  }

  /** The online part of a run, from the list with the manual computers added. */
  function MoonlightOnline(published: seq<Entry>, withAdded: seq<Entry>,
                           responses: Option<seq<Response>>, last: Option<Computer>): Run
  {
    var online := RemoveFirst(withAdded, NoNetwork);
    var full := AddLast(AddResponses(online, responses), last);
    var modified := |withAdded| > |published| || NoNetwork in withAdded ||
                    (responses.Some? && NotFound in published) || |full| > |online|;
    if |full| == 0 then Run([NotFound], true) else Run(full, modified)
  }

  /** A run that modifies nothing would publish the list it started from, so
    * skipping the assignment loses nothing. */
  lemma MoonlightUnmodifiedKeepsList(published: seq<Entry>, addedPCs: seq<Computer>, internetAvailable: bool,
                                     responses: Option<seq<Response>>, last: Option<Computer>)
    ensures var run := MoonlightRun(published, addedPCs, internetAvailable, responses, last);
            !run.modified ==> run.list == published
  {
    var withAdded := AddAll(published, addedPCs);
    var online := RemoveFirst(withAdded, NoNetwork);
    var found := AddResponses(online, responses);
    var full := AddLast(found, last);
    if |withAdded| == |published| {
      assert withAdded == withAdded[..|published|];
    }
    if |full| == |online| {
      assert full == full[..|found|][..|online|];
    }
  }

  /** The "not found" placeholder is removed from the published list instead
    * of the working copy, and the copy then replaces the published list: once
    * shown, the placeholder stays through every later online run. */
  lemma MoonlightNotFoundSurvives(published: seq<Entry>, addedPCs: seq<Computer>,
                                  responses: Option<seq<Response>>, last: Option<Computer>)
    requires NotFound in published
    ensures NotFound in MoonlightRun(published, addedPCs, true, responses, last).list
  {
    var withAdded := AddAll(published, addedPCs);
    AddAllKeepsPlaceholders(published, addedPCs, NotFound);
    var online := RemoveFirst(withAdded, NoNetwork);
    assert multiset(online)[NotFound] == multiset(withAdded)[NotFound];
    StagesKeepPlaceholders(online, responses, last, NotFound);
  }

  /** Offline, the "no network" placeholder appears exactly when nothing else
    * is listed, and otherwise the run only adds the manual computers. */
  lemma MoonlightOffline(published: seq<Entry>, addedPCs: seq<Computer>,
                         responses: Option<seq<Response>>, last: Option<Computer>)
    ensures var run := MoonlightRun(published, addedPCs, false, responses, last);
            var withAdded := AddAll(published, addedPCs);
            (run.list == [NoNetwork] <==> |withAdded| == 0 || withAdded == [NoNetwork]) &&
            (|withAdded| > 0 ==> run.list == withAdded && (run.modified <==> |withAdded| > |published|))
  {
  }

  /** Online, a single "no network" placeholder is taken out of the list. */
  lemma MoonlightOnlineDropsNoNetwork(published: seq<Entry>, addedPCs: seq<Computer>,
                                      responses: Option<seq<Response>>, last: Option<Computer>)
    requires multiset(published)[NoNetwork] <= 1
    ensures NoNetwork !in MoonlightRun(published, addedPCs, true, responses, last).list
  {
    var withAdded := AddAll(published, addedPCs);
    AddAllKeepsPlaceholders(published, addedPCs, NoNetwork);
    var online := RemoveFirst(withAdded, NoNetwork);
    assert multiset(online)[NoNetwork] == 0;
    StagesKeepPlaceholders(online, responses, last, NoNetwork);
  }

  /** Online, "not found" is added only to an otherwise empty list; it sits
    * beside computers only when it was already published. */
  lemma MoonlightNotFoundAlone(published: seq<Entry>, addedPCs: seq<Computer>,
                               responses: Option<seq<Response>>, last: Option<Computer>)
    requires NotFound !in published
    ensures var list := MoonlightRun(published, addedPCs, true, responses, last).list;
            NotFound in list ==> list == [NotFound]
  {
    var withAdded := AddAll(published, addedPCs);
    AddAllKeepsPlaceholders(published, addedPCs, NotFound);
    var online := RemoveFirst(withAdded, NoNetwork);
    assert multiset(online)[NotFound] == multiset(withAdded)[NotFound];
    StagesKeepPlaceholders(online, responses, last, NotFound);
  }

  /** Online, every streaming computer that answered and the last paired
    * computer end up listed by address. */
  lemma MoonlightOnlineCovers(published: seq<Entry>, addedPCs: seq<Computer>,
                              responses: Option<seq<Response>>, last: Option<Computer>)
    ensures var list := MoonlightRun(published, addedPCs, true, responses, last).list;
            (responses.Some? ==> forall p :: p in Nvstream(responses.value) ==> HasIp(list, p.ipAddress)) &&
            (last.Some? ==> HasIp(list, last.value.ipAddress))
  {
    StagesCover(RemoveFirst(AddAll(published, addedPCs), NoNetwork), responses, last);
  }

  /** The working copy Moonlight's `EnumerateEligibleMachines` builds, and its
    * `modified` flag. */
  method MoonlightWorkingCopy(published: seq<Entry>, addedPCs: seq<Computer>, internetAvailable: bool,
                              responses: Option<seq<Response>>, last: Option<Computer>)
    returns (local: seq<Entry>, modified: bool)
    ensures Run(local, modified) == MoonlightRun(published, addedPCs, internetAvailable, responses, last)
    ensures internetAvailable && responses.Some? && NotFound in published ==> modified
  {
    local := MergeComputers(published, addedPCs);
    ghost var withAdded := local;
    modified := |local| > |published|;
    if !internetAvailable {
      if |local| == 0 && NoNetwork !in local {
        local := local + [NoNetwork];
        modified := true;
      }
    } else {
      if NoNetwork in local {
        local := RemoveFirst(local, NoNetwork);
        modified := true;
      }
      if responses.Some? && NotFound in published {
        modified := true;
      }
      var online := local;
      local := OnlineStages(local, responses, last);
      if |local| > |online| {
        modified := true;
      }
      if |local| == 0 {
        modified := true;
        local := local + [NotFound];
      }
    }
  }

  /** The Moonlight main page. `computerList` is the published list; the
    * picker shows `pickerItems`, and `pickerShowsPublished` says whether the
    * picker's source is the very list object that is published, so that an
    * in-place change of one is a change of the other. */
  class MoonlightMainPage {
    var computerList: seq<Entry>
    var addedPCs: seq<Computer>
    var pickerItems: seq<Entry>
    var pickerShowsPublished: bool

    /** A picker that shares the published list shows what it holds. */
    predicate Valid()
      reads this
    {
      pickerShowsPublished ==> pickerItems == computerList
    }

    constructor ()
      ensures computerList == [] && addedPCs == [] && pickerItems == [] && !pickerShowsPublished
      ensures Valid()
    {
      computerList := [];
      addedPCs := [];
      pickerItems := [];
      pickerShowsPublished := false;
    }

    /** The page's `Loaded` handler, after its first enumeration: the picker's
      * source becomes the published list object itself. */
    method ShowPublishedList()
      requires Valid()
      modifies this
      ensures Valid() && pickerShowsPublished && pickerItems == computerList
      ensures computerList == old(computerList) && addedPCs == old(addedPCs)
    {
      pickerItems := computerList;
      pickerShowsPublished := true;
    }

    /** `EnumerateEligibleMachines`: the published list changes only when the
      * run modified its copy, and the picker is pointed at the new list only
      * when nothing is selected. "No Computers Found" is removed in place from
      * the old published list, so a picker still sharing it loses that entry
      * even when an item is selected. */
    method EnumerateEligibleMachines(internetAvailable: bool, responses: Option<seq<Response>>,
                                     pickerSelectedIndex: int, settings: SettingsStore)
      requires Valid()
      modifies this
      ensures Valid()
      ensures var run := MoonlightRun(old(computerList), addedPCs, internetAvailable, responses, LoadComputer(settings.values));
              computerList == (if run.modified then run.list else old(computerList))
      ensures var run := MoonlightRun(old(computerList), addedPCs, internetAvailable, responses, LoadComputer(settings.values));
              var removedInPlace := internetAvailable && responses.Some? && NotFound in old(computerList);
              pickerItems == (if run.modified && pickerSelectedIndex == -1 then run.list
                              else if old(pickerShowsPublished) && removedInPlace then RemoveFirst(old(pickerItems), NotFound)
                              else old(pickerItems))
      ensures var run := MoonlightRun(old(computerList), addedPCs, internetAvailable, responses, LoadComputer(settings.values));
              pickerShowsPublished == (if run.modified then pickerSelectedIndex == -1 else old(pickerShowsPublished))
      ensures addedPCs == old(addedPCs)
    {
      var published := computerList;
      var local, modified := MoonlightWorkingCopy(published, addedPCs, internetAvailable, responses, LoadComputer(settings.values));
      if internetAvailable && responses.Some? && NotFound in computerList {
        // Removed from the published list rather than the copy; the flag this
        // sets is already part of `modified`.
        var remaining := RemoveFirst(computerList, NotFound);
        computerList := remaining;
        if pickerShowsPublished {
          pickerItems := remaining;
        }
      }
      if modified {
        computerList := local;
        pickerShowsPublished := false;
        if pickerSelectedIndex == -1 {
          pickerItems := computerList;
          pickerShowsPublished := true;
        }
      }
    }
  }

  // ----- Limelight, shared project -----

  /** Each added computer as a picker entry. */
  function AsEntries(pcs: seq<Computer>): (r: seq<Entry>)
    ensures |r| == |pcs| && forall i :: 0 <= i < |r| ==> r[i] == Pc(pcs[i])
    ensures NoNetwork !in r && NotFound !in r
  {
    seq(|pcs|, i requires 0 <= i < |pcs| => Pc(pcs[i]))
  }

  /** The list a run of the shared project's `EnumerateEligibleMachines` builds. */
  function SharedRun(addedPCs: seq<Computer>, internetAvailable: bool,
                     responses: Option<seq<Response>>, last: Option<Computer>): seq<Entry>
  {
    var withAdded := AsEntries(addedPCs);
    if !internetAvailable then
      if |withAdded| == 0 && NoNetwork !in withAdded then [NoNetwork] else withAdded
    else
      var full := AddLast(AddResponses(RemoveFirst(withAdded, NoNetwork), responses), last);
      if |full| == 0 then [NotFound] else full
  }

  /** Every run starts afresh from all the added computers, in order and
    * without removing shared addresses; offline it adds nothing else, and
    * "no network" stands alone exactly when there are none. */
  lemma SharedRunStartsFromAdded(addedPCs: seq<Computer>, internetAvailable: bool,
                                 responses: Option<seq<Response>>, last: Option<Computer>)
    ensures var list := SharedRun(addedPCs, internetAvailable, responses, last);
            |addedPCs| > 0 ==> |list| >= |addedPCs| && list[..|addedPCs|] == AsEntries(addedPCs)
    ensures !internetAvailable ==>
              SharedRun(addedPCs, internetAvailable, responses, last) ==
              (if |addedPCs| == 0 then [NoNetwork] else AsEntries(addedPCs))
  {
    var withAdded := AsEntries(addedPCs);
    assert RemoveFirst(withAdded, NoNetwork) == withAdded;
  }

  /** Online, no stale placeholder survives: "no network" is gone, and "not
    * found" only ever stands alone. The list also covers every streaming
    * computer that answered and the last paired computer. */
  lemma SharedRunOnline(addedPCs: seq<Computer>, responses: Option<seq<Response>>, last: Option<Computer>)
    ensures var list := SharedRun(addedPCs, true, responses, last);
            NoNetwork !in list && (NotFound in list ==> list == [NotFound])
    ensures var list := SharedRun(addedPCs, true, responses, last);
            (responses.Some? ==> forall p :: p in Nvstream(responses.value) ==> HasIp(list, p.ipAddress)) &&
            (last.Some? ==> HasIp(list, last.value.ipAddress))
  {
    var withAdded := AsEntries(addedPCs);
    assert RemoveFirst(withAdded, NoNetwork) == withAdded;
    StagesKeepPlaceholders(withAdded, responses, last, NoNetwork);
    StagesKeepPlaceholders(withAdded, responses, last, NotFound);
    StagesCover(withAdded, responses, last);
  }

  /** Limelight's shared main page. */
  class SharedMainPage {
    var computerList: seq<Entry>
    var addedPCs: seq<Computer>
    var pickerItems: seq<Entry>

    constructor ()
      ensures computerList == [] && addedPCs == [] && pickerItems == []
    {
      computerList := [];
      addedPCs := [];
      pickerItems := [];
    }

    /** `EnumerateEligibleMachines`: the result always replaces the published list. */
    method EnumerateEligibleMachines(internetAvailable: bool, responses: Option<seq<Response>>,
                                     pickerSelectedIndex: int, settings: SettingsStore)
      modifies this
      ensures computerList == SharedRun(addedPCs, internetAvailable, responses, LoadComputer(settings.values))
      ensures pickerItems == (if pickerSelectedIndex == -1 then computerList else old(pickerItems))
      ensures addedPCs == old(addedPCs)
    {
      computerList := [];
      var local: seq<Entry> := [];
      local := local + AsEntries(addedPCs);
      assert local == AsEntries(addedPCs);
      if !internetAvailable {
        if |local| == 0 && NoNetwork !in local {
          local := local + [NoNetwork];
        }
      } else {
        if NoNetwork in local {
          local := RemoveFirst(local, NoNetwork);
        }
        // The "not found" placeholder is looked for in the published list,
        // which was emptied on entry, so that removal never finds anything.
        local := OnlineStages(local, responses, LoadComputer(settings.values));
        if |local| == 0 {
          local := local + [NotFound];
        }
      }
      computerList := local;
      if pickerSelectedIndex == -1 {
        pickerItems := computerList;
      }
    }
  }

  // ----- Limelight, early project -----

  /** The list a run of the early project's `EnumerateEligibleMachines` builds:
    * only the streaming computers that answered, and nothing offline or when
    * the browse threw. */
  function LimelightRun(internetAvailable: bool, responses: Option<seq<Response>>): seq<Entry>
  {
    if internetAvailable && responses.Some? then AddAll([], Nvstream(responses.value)) else []
  }

  /** The early project lists every streaming computer that answered, nothing
    * else, and no two entries share an address. */
  lemma LimelightRunExact(internetAvailable: bool, responses: Option<seq<Response>>)
    ensures var list := LimelightRun(internetAvailable, responses);
            DistinctIps(list) &&
            (forall e :: e in list ==> e.Pc? && responses.Some? && e.computer in Nvstream(responses.value)) &&
            (internetAvailable && responses.Some? ==>
              forall p :: p in Nvstream(responses.value) ==> HasIp(list, p.ipAddress))
  {
    if internetAvailable && responses.Some? {
      var list := AddAll([], Nvstream(responses.value));
      AddAllDistinct([], Nvstream(responses.value));
      AddAllAppendsGiven([], Nvstream(responses.value));
      AddAllCovers([], Nvstream(responses.value));
      forall e | e in list
        ensures e.Pc? && e.computer in Nvstream(responses.value)
      {
        var i :| 0 <= i < |list| && list[i] == e;
      }
    }
  }

  /** The picker's placeholder text for `count` computers. */
  function PlaceholderText(count: nat): (text: string)
    ensures count == 0 ==> text == "No computers found"
    ensures count == 1 ==> text == "1 computer found..."
    ensures count >= 2 ==> text == NatToString(count) + " computers found..."
  {
    if count == 0 then "No computers found"
    else if count == 1 then "1 computer found..."
    else NatToString(count) + " computers found..."
  }

  /** The text tells the count: different counts never share a placeholder. */
  lemma PlaceholderTextInjective(m: nat, n: nat)
    requires PlaceholderText(m) == PlaceholderText(n)
    ensures m == n
  {
    if m >= 2 && n >= 2 {
      var suffix := " computers found...";
      var a, b := NatToString(m), NatToString(n);
      assert (a + suffix)[..|a + suffix| - |suffix|] == a;
      assert (b + suffix)[..|b + suffix| - |suffix|] == b;
      NatToStringInjective(m, n);
    }
  }

  /** Limelight's early main page. */
  class LimelightMainPage {
    var computerList: seq<Entry>
    var placeholderText: string

    constructor ()
      ensures computerList == [] && placeholderText == ""
    {
      computerList := [];
      placeholderText := "";
    }

    /** `EnumerateEligibleMachines`: the list is rebuilt from scratch and the
      * placeholder counts it. */
    method EnumerateEligibleMachines(internetAvailable: bool, responses: Option<seq<Response>>)
      modifies this
      ensures computerList == LimelightRun(internetAvailable, responses)
      ensures placeholderText == PlaceholderText(|computerList|)
    {
      var local: seq<Entry> := [];
      if internetAvailable && responses.Some? {
        local := MergeResponses(local, responses.value);
      }
      computerList := local;
      if |computerList| == 0 {
        placeholderText := "No computers found";
      } else if |computerList| == 1 {
        placeholderText := "1 computer found...";
      } else {
        placeholderText := NatToString(|computerList|) + " computers found...";
      }
    }
  }
}
