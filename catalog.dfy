/**
 * The component-catalog protocol of main.py: lookups by qualified name, the
 * creation of base and derived component versions, renames, and the chain of
 * component items. The remote catalog is an oracle: its reply to a request
 * may depend on every request it received before, so what is created earlier
 * can be seen by later lookups.
 *
 * Each routine is a method of `CatalogClient`, which records the requests it
 * sends in `log`; each method is specified by a function that gives the
 * requests it sends and the value it returns, as a `Trace`.
 */
module Catalog {
  import opened Wrappers
  import opened Text
  import opened Names

  /** A key/value entry of a file item. */
  datatype Entry = Entry(key: string, value: string)

  /** A file item: its entries in order. */
  type Item = seq<Entry>

  /** One request to the catalog, with the parameters main.py puts in its URL. */
  datatype Call =
      /** GET /dmadminweb/API/component/?name=…[&idonly=Y][&latest=Y] */
    | FindComponent(name: string, idOnly: bool, latest: bool)
      /** GET /dmadminweb/API/new/compver/?name=… */
    | NewBaseVersion(name: string)
      /** GET /dmadminweb/API/new/compver/<parent> */
    | NewVersionOf(parent: int)
      /** GET /dmadminweb/UpdateSummaryData?objtype=23&id=…&change_1=… */
    | Rename(id: int, newName: string)
      /** GET /dmadminweb/UpdateAttrs?f=inv&c=…&xpos=100&ypos=100&kind=…&removeall=Y */
    | ResetItems(compid: int, kind: string)
      /** GET /dmadminweb/API/new/compitem/<name>?component=…&xpos=100&ypos=…&kind=…[&k=v]*[&removeall=Y] */
    | NewItem(itemName: string, compid: int, ypos: int, kind: string, attrs: seq<Entry>, removeAll: bool)
      /** GET /dmadminweb/UpdateAttrs?f=iad&c=…&fn=<from>&tn=<to> */
    | LinkItems(compid: int, from: int, to: int)
      /** GET /dmadminweb/API/component/<id>?idonly=Y */
    | ComponentName(id: int)
      /** POST /dmadminweb/API/setvar/component/<id> */
    | SetVars(id: int, vars: map<string, string>)

  /** An entry of a lookup reply's `versions` list. */
  datatype Version = Version(id: int, name: string)

  /** The `result` object of a reply; `id` may be missing. */
  datatype Body = Body(id: Option<int>, name: string, domain: string, versions: Option<seq<Version>>)

  /** A decoded JSON reply. */
  datatype Reply = Reply(success: bool, result: Option<Body>)

  /**
   * The remote catalog: its reply to a request given all requests it received
   * before. For `get_json` None stands for a transport error, a status other
   * than 200 or a body that is not JSON; for `post_json`, whose status guard
   * lets every status through (`PostGuardAsWrittenPasses`), None stands only
   * for a connection error.
   */
  type Oracle = (seq<Call>, Call) -> Option<Reply>

  /** The `[id, name]` pair a lookup returns. */
  datatype Hit = Hit(id: int, name: string)

  /** The not-found sentinel `[-1, ""]`. */
  const Miss: Hit := Hit(-1, "")

  /** The requests a routine sends, in order, and the value it returns. */
  datatype Trace<T> = Trace(calls: seq<Call>, value: T)

  /** `kind.lower() == "docker"`; every other kind is handled as a file component. */
  predicate IsDocker(kind: string) {
    Lower(kind) == "docker"
  }

  function AsArg(o: Option<string>): Arg {
    match o
    case None => Null
    case Some(s) => Str(s)
  }

  // ---------------------------------------------------------------- lookups

  /** The position of the first version named `check`, if any. */
  function FirstMatch(vers: seq<Version>, check: string): (k: Option<nat>)
    ensures k.Some? ==> k.value < |vers| && vers[k.value].name == check
    ensures k.Some? ==> forall j :: 0 <= j < k.value ==> vers[j].name != check
    ensures k.None? ==> forall j :: 0 <= j < |vers| ==> vers[j].name != check
    decreases |vers|
  {
    if vers == [] then None
    else if vers[0].name == check then Some(0)
    else
      match FirstMatch(vers[1..], check)
      case None => None
      case Some(k) => Some(k + 1)
  }

  /**
   * The `[id, name]` that get_component makes of a reply: the sentinel when
   * there is no successful reply; otherwise the reply's own id and name,
   * unless that name differs from `check` and a version named `check` is
   * listed, in which case the first such version.
   */
  function ReadLookup(reply: Option<Reply>, check: string): (h: Hit)
    ensures reply.None? || !reply.value.success ==> h == Miss
    ensures h != Miss && h.name != check ==>
              reply.Some? && reply.value.result.Some? && h.name == reply.value.result.value.name
    ensures reply.Some? && reply.value.success && reply.value.result.Some? && reply.value.result.value.id.Some?
            && reply.value.result.value.versions.Some?
            && (exists v :: v in reply.value.result.value.versions.value && v.name == check)
            ==> h.name == check
    ensures reply.Some? && reply.value.success && (reply.value.result.None? || reply.value.result.value.id.None?)
            ==> h == Miss
    ensures reply.Some? && reply.value.success && reply.value.result.Some? && reply.value.result.value.id.Some? ==>
              var b := reply.value.result.value;
              if b.name != check && b.versions.Some? && exists j :: 0 <= j < |b.versions.value| && b.versions.value[j].name == check
              then exists k :: 0 <= k < |b.versions.value| && b.versions.value[k].name == check
                               && (forall j :: 0 <= j < k ==> b.versions.value[j].name != check)
                               && h == Hit(b.versions.value[k].id, check)
              else h == Hit(b.id.value, b.name)
  {
    match reply
    case None => Miss
    case Some(r) =>
      if !r.success || r.result.None? || r.result.value.id.None? then Miss
      else
        var b := r.result.value;
        var top := Hit(b.id.value, b.name);
        if b.name != check && b.versions.Some? then
          match FirstMatch(b.versions.value, check)
          case None => top
          case Some(k) => Hit(b.versions.value[k].id, check)
        else top
  }

  /** The request get_component sends: the qualified name after cleaning and promotion. */
  function LookupCall(compname: string, variant: Option<string>, version: Option<string>, idOnly: bool, latest: bool): Call {
    var (v, ver) := Promote(CleanName(variant), CleanName(version));
    FindComponent(Qualify(compname, v, ver), idOnly, latest)
  }

  /** The name get_component compares the reply with. */
  function LookupCheck(compname: string, variant: Option<string>, version: Option<string>): string {
    var (v, ver) := Promote(CleanName(variant), CleanName(version));
    CheckName(compname, v, ver)
  }

  /** get_component: one lookup request by qualified name, read against the check name. */
  function Lookup(o: Oracle, h: seq<Call>, compname: string, variant: Option<string>, version: Option<string>,
                  idOnly: bool, latest: bool): Trace<Hit>
  {
    var c := LookupCall(compname, variant, version, idOnly, latest);
    Trace([c], ReadLookup(o(h, c), LookupCheck(compname, variant, version)))
  }

  /**
   * The fallback chain of new_component_version: (variant, version), then
   * (variant, None), then ("", None), stopping at the first id other than -1.
   */
  function LookupChain(o: Oracle, h: seq<Call>, name: string, variant: string, version: Option<string>): Trace<Hit> {
    var l1 := Lookup(o, h, name, Some(variant), version, false, true);
    if l1.value.id != -1 then l1
    else
      var l2 := Lookup(o, h + l1.calls, name, Some(variant), None, false, true);
      if l2.value.id != -1 then Trace(l1.calls + l2.calls, l2.value)
      else
        var l3 := Lookup(o, h + l1.calls + l2.calls, name, Some(""), None, false, true);
        Trace(l1.calls + l2.calls + l3.calls, l3.value)
  }

  // ------------------------------------------------------------------ items

  /** The item's name: the value of its last entry whose key is `name` in any case, or "". */
  function ItemName(item: Item): string
    decreases |item|
  {
    if item == [] then ""
    else if Lower(item[|item| - 1].key) == "name" then item[|item| - 1].value
    else ItemName(item[..|item| - 1])
  }

  /** The item's other entries, in order: they become URL parameters. */
  function ItemAttrs(item: Item): seq<Entry>
    decreases |item|
  {
    if item == [] then []
    else
      var rest := ItemAttrs(item[..|item| - 1]);
      var last := item[|item| - 1];
      if Lower(last.key) == "name" then rest else rest + [last]
  }

  /** The create request for the `i`-th item: `ypos` grows by 100 per item, only the first clears. */
  function ItemCall(compid: int, kind: string, items: seq<Item>, i: nat): Call
    requires i < |items|
  {
    NewItem(ItemName(items[i]), compid, 100 + 100 * i, kind, ItemAttrs(items[i]), i == 0)
  }

  /** Whether a reply to an item creation carries a `result` object. */
  predicate Created(r: Option<Reply>) {
    r.Some? && r.value.result.Some?
  }

  /** The id in a reply to an item creation, `-1` when missing. */
  function WorkId(r: Option<Reply>): int
    requires Created(r)
  {
    r.value.result.value.id.GetOr(-1)
  }

  /** The create requests for items `i` onwards, in order. */
  function ItemCalls(compid: int, kind: string, items: seq<Item>, i: nat): (r: seq<Call>)
    requires i <= |items|
    ensures |r| == |items| - i
    decreases |items| - i
  {
    if i == |items| then [] else [ItemCall(compid, kind, items, i)] + ItemCalls(compid, kind, items, i + 1)
  }

  lemma ItemCallsStep(compid: int, kind: string, items: seq<Item>, i: nat)
    requires i < |items|
    ensures ItemCalls(compid, kind, items, i)[0] == ItemCall(compid, kind, items, i)
    ensures ItemCalls(compid, kind, items, i)[1..] == ItemCalls(compid, kind, items, i + 1)
  {
  }

  /**
   * The item loop of new_component_item over the remaining create requests
   * `creates`: `parent` is the id of the last item created, `data` the last
   * creation reply. An item is linked to the previous one only when that
   * one's id is > 0.
   */
  function ItemSteps(o: Oracle, h: seq<Call>, compid: int, creates: seq<Call>, parent: int, data: Option<Reply>)
    : Trace<Option<Reply>>
    decreases |creates|
  {
    if creates == [] then Trace([], data)
    else
      var c := creates[0];
      var r := o(h, c);
      var rest := ItemSteps(o, h + [c] + Link(compid, parent, r), compid, creates[1..], NextParent(parent, r), r);
      Trace([c] + Link(compid, parent, r) + rest.calls, rest.value)
  }

  /** The link request that follows an item creation: only when it created an item and the previous id is > 0. */
  function Link(compid: int, parent: int, r: Option<Reply>): seq<Call> {
    if Created(r) && parent > 0 then [LinkItems(compid, parent, WorkId(r))] else []
  }

  /** The id the next item is linked from. */
  function NextParent(parent: int, r: Option<Reply>): int {
    if Created(r) then WorkId(r) else parent
  }

  /** new_component_item. */
  function Items(o: Oracle, h: seq<Call>, compid: int, kind: string, items: Option<seq<Item>>): Trace<Option<Reply>> {
    if IsDocker(kind) || items.None? then
      var c := ResetItems(compid, kind);
      Trace([c], o(h, c))
    else ItemSteps(o, h, compid, ItemCalls(compid, kind, items.value, 0), -1, None)
  }

  lemma Regroup(a: seq<Call>, b: seq<Call>, c: seq<Call>)
    ensures a + (b + c) == (a + b) + c
  {
  }

  /** One step of the item loop. */
  lemma ItemStep(o: Oracle, h: seq<Call>, compid: int, creates: seq<Call>, parent: int, data: Option<Reply>,
                 r: Option<Reply>)
    requires creates != []
    requires r == o(h, creates[0])
    ensures ItemSteps(o, h, compid, creates, parent, data).calls
            == [creates[0]] + Link(compid, parent, r)
               + ItemSteps(o, h + [creates[0]] + Link(compid, parent, r), compid, creates[1..], NextParent(parent, r), r).calls
    ensures ItemSteps(o, h, compid, creates, parent, data).value
            == ItemSteps(o, h + [creates[0]] + Link(compid, parent, r), compid, creates[1..], NextParent(parent, r), r).value
  {
  }

  /** One pass of new_component_item's loop, as the loop sees it. */
  lemma ItemLoopStep(o: Oracle, h: seq<Call>, compid: int, kind: string, list: seq<Item>, i: nat, parent: int,
                     data: Option<Reply>, r: Option<Reply>)
    requires i < |list|
    requires r == o(h, ItemCall(compid, kind, list, i))
    ensures var step := [ItemCall(compid, kind, list, i)] + Link(compid, parent, r);
            var next := ItemSteps(o, h + step, compid, ItemCalls(compid, kind, list, i + 1), NextParent(parent, r), r);
            ItemSteps(o, h, compid, ItemCalls(compid, kind, list, i), parent, data) == Trace(step + next.calls, next.value)
  {
    ItemCallsStep(compid, kind, list, i);
    ItemStep(o, h, compid, ItemCalls(compid, kind, list, i), parent, data, r);
    Regroup(h, [ItemCall(compid, kind, list, i)], Link(compid, parent, r));
  }

  // --------------------------------------------------------------- creation

  /** The id in a reply to a version creation: `int(result.get("id", "0"))`, 0 without a reply. */
  function NewId(r: Option<Reply>): int {
    if r.Some? && r.value.result.Some? then r.value.result.value.id.GetOr(0) else 0
  }

  /** update_name: renames `compid` to the last dot-segment of the name plus its qualifiers. */
  function RenameTrace(o: Oracle, h: seq<Call>, compname: string, variant: Option<string>, version: Option<string>,
                       compid: int): Trace<Option<Reply>>
  {
    var (v, ver) := Promote(CleanName(variant), CleanName(version));
    var c := Rename(compid, Qualify(RenameBase(compname), v, ver));
    Trace([c], o(h, c))
  }

  /**
   * new_docker_component (kind "docker", no items) and new_file_component
   * (kind "file"): a base version named `name[;variant]` when `parent < 0`,
   * otherwise a version derived from `parent` and then renamed; the item
   * structure follows in both cases.
   */
  /** The name of a new base version: `name;variant`, or `name` when the variant is empty. */
  function BaseName(compname: string, variant: Option<string>): string {
    if IsEmpty(AsArg(variant)) then compname else compname + ";" + variant.value
  }

  /** A base version (no parent) and its item structure. */
  function BaseTrace(o: Oracle, h: seq<Call>, compname: string, variant: Option<string>, kind: string,
                     items: Option<seq<Item>>): Trace<int>
  {
    var c := NewBaseVersion(BaseName(compname, variant));
    var id := NewId(o(h, c));
    var it := Items(o, h + [c], id, kind, items);
    Trace([c] + it.calls, id)
  }

  /** A version derived from `parent`, renamed, and its item structure. */
  function DeriveTrace(o: Oracle, h: seq<Call>, compname: string, variant: Option<string>, version: Option<string>,
                       parent: int, kind: string, items: Option<seq<Item>>): Trace<int>
  {
    var c := NewVersionOf(parent);
    var id := NewId(o(h, c));
    var rn := RenameTrace(o, h + [c], compname, variant, version, id);
    var it := Items(o, h + [c] + rn.calls, id, kind, items);
    Trace([c] + rn.calls + it.calls, id)
  }

  /**
   * new_docker_component (kind "docker", no items) and new_file_component
   * (kind "file"): a base version when `parent < 0`, otherwise a version
   * derived from `parent`.
   */
  function CreateTrace(o: Oracle, h: seq<Call>, compname: string, variant: string, version: string, parent: int,
                       kind: string, items: Option<seq<Item>>): Trace<int>
  {
    var (v, ver) := Promote(CleanName(Some(variant)), CleanName(Some(version)));
    if parent < 0 then BaseTrace(o, h, compname, v, kind, items)
    else DeriveTrace(o, h, compname, v, ver, parent, kind, items)
  }

  /** new_docker_component. */
  function DockerTrace(o: Oracle, h: seq<Call>, compname: string, variant: string, version: string, parent: int): Trace<int> {
    CreateTrace(o, h, compname, variant, version, parent, "docker", None)
  }

  /** new_file_component. */
  function FileTrace(o: Oracle, h: seq<Call>, compname: string, variant: string, version: string, parent: int,
                     items: Option<seq<Item>>): Trace<int>
  {
    CreateTrace(o, h, compname, variant, version, parent, "file", items)
  }

  /** The normalised inputs of new_component_version: cleaned, promoted, trailing `;` removed. */
  datatype Target = Target(name: string, variant: string, version: Option<string>)

  function IsSemicolon(c: char): bool { c == ';' }

  function Normalise(compname: string, variant: string, version: Option<string>): Target {
    var (v, ver) := Promote(CleanName(Some(variant)), CleanName(version));
    Target(TrimRight(compname, IsSemicolon),
           TrimRight(v.GetOr(""), IsSemicolon),
           if ver.None? then None else Some(TrimRight(ver.value, IsSemicolon)))
  }

  /** The name new_component_version compares a found component with. */
  function TargetCheck(t: Target): string {
    CheckName(t.name, Some(t.variant), t.version)
  }

  /** A base component of the given kind, without items for a file component. */
  function FreshTrace(o: Oracle, h: seq<Call>, t: Target, kind: string): Trace<int> {
    if IsDocker(kind) then DockerTrace(o, h, t.name, t.variant, t.version.GetOr(""), -1)
    else FileTrace(o, h, t.name, t.variant, t.version.GetOr(""), -1, None)
  }

  /** After a hit: a version derived from it, unless its name is already the check name. */
  function KeepOrDerive(o: Oracle, h: seq<Call>, t: Target, found: Hit, kind: string, items: Option<seq<Item>>): Trace<int> {
    if found.name == "" || found.name != TargetCheck(t) then
      (if IsDocker(kind) then DockerTrace(o, h, t.name, t.variant, t.version.GetOr(""), found.id)
       else FileTrace(o, h, t.name, t.variant, t.version.GetOr(""), found.id, items))
    else Trace([], found.id)
  }

  /** The item structure sent again for a positive id: docker items, or the file items. */
  function ItemsAgain(o: Oracle, h: seq<Call>, compid: int, kind: string, items: Option<seq<Item>>): Trace<Option<Reply>> {
    if compid <= 0 then Trace([], None)
    else if IsDocker(kind) then Items(o, h, compid, "docker", None)
    else Items(o, h, compid, "file", items)
  }

  /** After a hit, without `autoInc`: keep or derive, then the item structure again. */
  function RefreshTrace(o: Oracle, h: seq<Call>, t: Target, found: Hit, kind: string, items: Option<seq<Item>>): Trace<int> {
    var cr := KeepOrDerive(o, h, t, found, kind, items);
    var it := ItemsAgain(o, h + cr.calls, cr.value, kind, items);
    Trace(cr.calls + it.calls, cr.value)
  }

  /**
   * What new_component_version does with the hit of its lookup chain: a base
   * component when the id is negative, the hit itself when `autoInc` is
   * given, a refresh otherwise.
   */
  function DecideTrace(o: Oracle, h: seq<Call>, t: Target, found: Hit, kind: string, items: Option<seq<Item>>,
                       autoInc: Option<bool>): Trace<int>
  {
    if found.id < 0 then FreshTrace(o, h, t, kind)
    else if autoInc.Some? then Trace([], found.id)
    else RefreshTrace(o, h, t, found, kind, items)
  }

  /** new_component_version: the lookup chain, then the decision. */
  function ResolveTrace(o: Oracle, h: seq<Call>, compname: string, variant: string, version: Option<string>,
                        kind: string, items: Option<seq<Item>>, autoInc: Option<bool>): Trace<int>
  {
    var t := Normalise(compname, variant, version);
    var look := LookupChain(o, h, t.name, t.variant, t.version);
    var d := DecideTrace(o, h + look.calls, t, look.value, kind, items, autoInc);
    Trace(look.calls + d.calls, d.value)
  }

  /** get_component_name: `domain.name` of a component, "" when the lookup fails. */
  function NameTrace(o: Oracle, h: seq<Call>, compid: int): Trace<string> {
    var c := ComponentName(compid);
    var r := o(h, c);
    var name := if r.Some? && r.value.success && r.value.result.Some?
                then r.value.result.value.domain + "." + r.value.result.value.name else "";
    Trace([c], name)
  }

  /** What update_component_attrs reports. */
  datatype AttrsOutcome = NoComponent | NotSet | Set(id: int)

  /** update_component_attrs: an id-only lookup, then the attributes posted to that id. */
  function AttrsTrace(o: Oracle, h: seq<Call>, compname: string, variant: Option<string>, version: Option<string>,
                      attrs: map<string, string>): Trace<AttrsOutcome>
  {
    var l := Lookup(o, h, compname, variant, version, true, false);
    if l.value.id < 0 then Trace(l.calls, NoComponent)
    else
      var c := SetVars(l.value.id, attrs);
      Trace(l.calls + [c], if o(h + l.calls, c).None? then NotSet else Set(l.value.id))
  }

  // -------------------------------------------------------------- post_json

  /** post_json's status guard as written: `status < 200 and status > 299`. */
  predicate PostRejectsAsWritten(status: int) {
    status < 200 && status > 299
  }

  /**
   * As written the guard rejects no status, so a server error's JSON body is
   * returned as the reply, and update_component_attrs reports it as a success.
   */
  lemma PostGuardAsWrittenPasses(status: int)
    ensures !PostRejectsAsWritten(status)
    ensures status == 500 ==> !PostRejectsAsWritten(status) && PostRejects(status)
  {
  }

  /** The guard as intended: `status < 200 or status > 299`. */
  predicate PostRejects(status: int) {
    status < 200 || status > 299
  }

  /** As intended the guard keeps exactly the 2xx replies. */
  lemma PostGuardKeepsSuccess(status: int)
    ensures !PostRejects(status) <==> 200 <= status < 300
  {
  }

  // ----------------------------------------------------------------- client

  /** The catalog client: every request it sends is appended to `log`. */
  class CatalogClient {
    const oracle: Oracle
    var log: seq<Call>

    constructor (oracle: Oracle)
      ensures this.oracle == oracle && log == []
    {
      this.oracle := oracle;
      log := [];
    }

    /** get_json / post_json: one request and its decoded reply. */
    method Send(c: Call) returns (reply: Option<Reply>)
      modifies this
      ensures log == old(log) + [c]
      ensures reply == oracle(old(log), c)
    {
      reply := oracle(log, c);
      log := log + [c];
    }

    /** get_component. */
    method GetComponent(compname: string, variant: Option<string>, version: Option<string>, idOnly: bool, latest: bool)
      returns (hit: Hit)
      modifies this
      ensures var t := Lookup(oracle, old(log), compname, variant, version, idOnly, latest);
              log == old(log) + t.calls && hit == t.value
    {
      var v := CleanName(variant);
      var ver := CleanName(version);
      if Blank(v) && !Blank(ver) {
        v := ver;
        ver := None;
      }
      var component := Qualify(compname, v, ver);
      var check := CheckName(compname, v, ver);
      var data := Send(FindComponent(component, idOnly, latest));
      hit := ReadReply(data, check);
    }

    /** How get_component reads a reply: the versions are scanned for the check name. */
    static method ReadReply(data: Option<Reply>, check: string) returns (hit: Hit)
      ensures hit == ReadLookup(data, check)
    {
      if data.None? || !data.value.success || data.value.result.None? || data.value.result.value.id.None? {
        return Miss;
      }
      var b := data.value.result.value;
      hit := Hit(b.id.value, b.name);
      if b.name != check && b.versions.Some? {
        var vers := b.versions.value;
        var i := 0;
        while i < |vers|
          invariant 0 <= i <= |vers|
          invariant forall j :: 0 <= j < i ==> vers[j].name != check
        {
          if vers[i].name == check {
            hit := Hit(vers[i].id, vers[i].name);
            assert FirstMatch(vers, check) == Some(i);
            break;
          }
          i := i + 1;
        }
      }
    }

    /** new_component_item. */
    method NewComponentItem(compid: int, kind: string, items: Option<seq<Item>>) returns (data: Option<Reply>)
      modifies this
      ensures var t := Items(oracle, old(log), compid, kind, items);
              log == old(log) + t.calls && data == t.value
    {
      if IsDocker(kind) || items.None? {
        data := Send(ResetItems(compid, kind));
        return;
      }
      data := AddItems(compid, kind, items.value);
    }

    /** The loop of new_component_item over a list of items. */
    method AddItems(compid: int, kind: string, list: seq<Item>) returns (data: Option<Reply>)
      modifies this
      ensures var t := ItemSteps(oracle, old(log), compid, ItemCalls(compid, kind, list, 0), -1, None);
              log == old(log) + t.calls && data == t.value
    {
      data := None;
      var i: nat := 0;
      var parentItem := -1;
      ghost var done: seq<Call> := [];
      while i < |list|
        invariant i <= |list|
        invariant log == old(log) + done
        invariant var rest := ItemSteps(oracle, log, compid, ItemCalls(compid, kind, list, i), parentItem, data);
                  ItemSteps(oracle, old(log), compid, ItemCalls(compid, kind, list, 0), -1, None)
                  == Trace(done + rest.calls, rest.value)
        decreases |list| - i
      {
        ghost var before, prevParent, prevData := log, parentItem, data;
        data, parentItem := AddItem(compid, kind, list, i, parentItem);
        ghost var step := [ItemCall(compid, kind, list, i)] + Link(compid, prevParent, data);
        ItemLoopStep(oracle, before, compid, kind, list, i, prevParent, prevData, data);
        i := i + 1;
        Regroup(done, step, ItemSteps(oracle, log, compid, ItemCalls(compid, kind, list, i), parentItem, data).calls);
        done := done + step;
      }
    }

    /**
     * One pass of the item loop: creates the `i`-th item at `ypos` 100 + 100 * i,
     * links it from `parent` when that is a real item, and returns the reply
     * and the id the next item links from.
     */
    method AddItem(compid: int, kind: string, list: seq<Item>, i: nat, parent: int) returns (data: Option<Reply>, next: int)
      requires i < |list|
      modifies this
      ensures data == oracle(old(log), ItemCall(compid, kind, list, i))
      ensures log == old(log) + ([ItemCall(compid, kind, list, i)] + Link(compid, parent, data))
      ensures next == NextParent(parent, data)
    {
      var ypos := 100 + 100 * i;
      data := Send(NewItem(ItemName(list[i]), compid, ypos, kind, ItemAttrs(list[i]), i == 0));
      next := parent;
      if data.Some? && data.value.result.Some? {
        var workId := data.value.result.value.id.GetOr(-1);
        if parent > 0 {
          var _ := Send(LinkItems(compid, parent, workId));
        }
        next := workId;
      }
    }

    /** update_name. */
    method UpdateName(compname: string, variant: Option<string>, version: Option<string>, compid: int)
      returns (data: Option<Reply>)
      modifies this
      ensures var t := RenameTrace(oracle, old(log), compname, variant, version, compid);
              log == old(log) + t.calls && data == t.value
    {
      var v := CleanName(variant);
      var ver := CleanName(version);
      if Blank(v) && !Blank(ver) {
        v := ver;
        ver := None;
      }
      data := Send(Rename(compid, Qualify(RenameBase(compname), v, ver)));
    }

    /** The shared body of new_docker_component and new_file_component. */
    method CreateVersion(compname: string, variant: string, version: string, parent: int, kind: string,
                        items: Option<seq<Item>>) returns (compid: int)
      modifies this
      ensures var t := CreateTrace(oracle, old(log), compname, variant, version, parent, kind, items);
              log == old(log) + t.calls && compid == t.value
    {
      var (v, ver) := Promote(CleanName(Some(variant)), CleanName(Some(version)));
      ghost var h0 := log;
      if parent < 0 {
        var data := Send(NewBaseVersion(BaseName(compname, v)));
        compid := NewId(data);
        ghost var h1 := log;
        var _ := NewComponentItem(compid, kind, items);
        Regroup(h0, [NewBaseVersion(BaseName(compname, v))], Items(oracle, h1, compid, kind, items).calls);
      } else {
        var data := Send(NewVersionOf(parent));
        compid := NewId(data);
        ghost var h1 := log;
        var _ := UpdateName(compname, v, ver, compid);
        ghost var h2 := log;
        var _ := NewComponentItem(compid, kind, items);
        ghost var rn := RenameTrace(oracle, h1, compname, v, ver, compid).calls;
        Regroup(h0, [NewVersionOf(parent)], rn);
        Regroup(h0, [NewVersionOf(parent)] + rn, Items(oracle, h2, compid, kind, items).calls);
      }
    }

    /** new_docker_component. */
    method NewDockerComponent(compname: string, variant: string, version: string, parent: int) returns (compid: int)
      modifies this
      ensures var t := DockerTrace(oracle, old(log), compname, variant, version, parent);
              log == old(log) + t.calls && compid == t.value
    {
      compid := CreateVersion(compname, variant, version, parent, "docker", None);
    }

    /** new_file_component. */
    method NewFileComponent(compname: string, variant: string, version: string, parent: int, items: Option<seq<Item>>)
      returns (compid: int)
      modifies this
      ensures var t := FileTrace(oracle, old(log), compname, variant, version, parent, items);
              log == old(log) + t.calls && compid == t.value
    {
      compid := CreateVersion(compname, variant, version, parent, "file", items);
    }

    /** The lookup fallback chain at the start of new_component_version. */
    method FindLatest(name: string, variant: string, version: Option<string>) returns (hit: Hit)
      modifies this
      ensures var t := LookupChain(oracle, old(log), name, variant, version);
              log == old(log) + t.calls && hit == t.value
    {
      ghost var h0 := log;
      hit := GetComponent(name, Some(variant), version, false, true);
      ghost var l1 := Lookup(oracle, h0, name, Some(variant), version, false, true);
      if hit.id == -1 {
        ghost var h1 := log;
        hit := GetComponent(name, Some(variant), None, false, true);
        ghost var l2 := Lookup(oracle, h1, name, Some(variant), None, false, true);
        if hit.id == -1 {
          ghost var h2 := log;
          hit := GetComponent(name, Some(""), None, false, true);
          ghost var l3 := Lookup(oracle, h2, name, Some(""), None, false, true);
          assert h2 == h0 + l1.calls + l2.calls;
          Regroup(h0, l1.calls + l2.calls, l3.calls);
        } else {
          Regroup(h0, l1.calls, l2.calls);
        }
      }
    }

    /**
     * The branch of new_component_version taken after a hit without
     * `autoInc`: derive a version unless the hit already has the check name,
     * then send the item structure of the resulting id when it is positive.
     */
    method Refresh(t: Target, found: Hit, kind: string, items: Option<seq<Item>>) returns (compid: int)
      modifies this
      ensures var r := RefreshTrace(oracle, old(log), t, found, kind, items);
              log == old(log) + r.calls && compid == r.value
    {
      compid := found.id;
      var verText := t.version.GetOr("");
      if found.name == "" || found.name != CheckName(t.name, Some(t.variant), t.version) {
        if IsDocker(kind) {
          compid := NewDockerComponent(t.name, t.variant, verText, compid);
        } else {
          compid := NewFileComponent(t.name, t.variant, verText, compid, items);
        }
      }
      ghost var h1 := log;
      assert log == old(log) + KeepOrDerive(oracle, old(log), t, found, kind, items).calls;
      if compid > 0 {
        if IsDocker(kind) {
          var _ := NewComponentItem(compid, "docker", None);
        } else {
          var _ := NewComponentItem(compid, "file", items);
        }
      }
      assert log == h1 + ItemsAgain(oracle, h1, compid, kind, items).calls;
      Regroup(old(log), h1[|old(log)|..], log[|h1|..]);
    }

    /** new_component_version. */
    method NewComponentVersion(compname: string, variant: string, version: Option<string>, kind: string,
                               items: Option<seq<Item>>, autoInc: Option<bool>) returns (compid: int)
      modifies this
      ensures var t := ResolveTrace(oracle, old(log), compname, variant, version, kind, items, autoInc);
              log == old(log) + t.calls && compid == t.value
    {
      var t := Normalise(compname, variant, version);
      var data := FindLatest(t.name, t.variant, t.version);
      ghost var h1 := log;
      compid := data.id;
      if data.id < 0 {
        if IsDocker(kind) {
          compid := NewDockerComponent(t.name, t.variant, t.version.GetOr(""), -1);
        } else {
          compid := NewFileComponent(t.name, t.variant, t.version.GetOr(""), -1, None);
        }
      } else if autoInc.None? {
        compid := Refresh(t, data, kind, items);
      }
      ghost var d := DecideTrace(oracle, h1, t, data, kind, items, autoInc);
      assert log == h1 + d.calls && compid == d.value;
      Regroup(old(log), h1[|old(log)|..], d.calls);
    }

    /** get_component_name. */
    method GetComponentName(compid: int) returns (name: string)
      modifies this
      ensures var t := NameTrace(oracle, old(log), compid);
              log == old(log) + t.calls && name == t.value
    {
      var data := Send(ComponentName(compid));
      name := "";
      if data.Some? && data.value.success && data.value.result.Some? {
        name := data.value.result.value.domain + "." + data.value.result.value.name;
      }
    }

    /** update_component_attrs. */
    method UpdateComponentAttrs(compname: string, variant: Option<string>, version: Option<string>,
                                attrs: map<string, string>) returns (outcome: AttrsOutcome)
      modifies this
      ensures var t := AttrsTrace(oracle, old(log), compname, variant, version, attrs);
              log == old(log) + t.calls && outcome == t.value
    {
      var data := GetComponent(compname, variant, version, true, false);
      if data.id < 0 {
        return NoComponent;
      }
      var reply := Send(SetVars(data.id, attrs));
      outcome := if reply.None? then NotSet else Set(data.id);
    }
  }
}
