/** What the access lists of a document grant: right by right, the bit of a right is
    set in a mask exactly when the list names the right. */
module AccessMeaning {
  import opened Bytes
  import opened LandlockBits
  import opened PolicyIr
  import opened Toml
  import P = PolicyDoc
  import R = RustHelper

  // ----- the names, by bit number

  function FsName(k: nat): Str {
    if k == FS_EXECUTE then "execute"
    else if k == FS_WRITE_FILE then "write_file"
    else if k == FS_READ_FILE then "read_file"
    else if k == FS_READ_DIR then "read_dir"
    else if k == FS_REMOVE_DIR then "remove_dir"
    else if k == FS_REMOVE_FILE then "remove_file"
    else if k == FS_MAKE_CHAR then "make_char"
    else if k == FS_MAKE_DIR then "make_dir"
    else if k == FS_MAKE_REG then "make_reg"
    else if k == FS_MAKE_SOCK then "make_sock"
    else if k == FS_MAKE_FIFO then "make_fifo"
    else if k == FS_MAKE_BLOCK then "make_block"
    else if k == FS_MAKE_SYM then "make_sym"
    else if k == FS_REFER then "refer"
    else if k == FS_TRUNCATE then "truncate"
    else if k == FS_IOCTL_DEV then "ioctl_dev"
    else ""
  }

  function NetName(k: nat): Str {
    if k == NET_BIND_TCP then "bind_tcp" else if k == NET_CONNECT_TCP then "connect_tcp" else ""
  }

  function AttrName(k: nat): Str {
    if k == ATTR_RDONLY then "readonly"
    else if k == ATTR_NOSUID then "nosuid"
    else if k == ATTR_NODEV then "nodev"
    else if k == ATTR_NOEXEC then "noexec"
    else ""
  }

  // ----- tables whose entry k has the k-th name and the number k

  predicate EntryIs(table: P.Names16, name: nat -> Str, k: nat)
    requires k < |table|
  {
    table[k] == (name(k), k) && name(k) != ""
  }

  predicate InOrder(table: P.Names16, name: nat -> Str) {
    |table| <= 16 && forall k :: 0 <= k < |table| ==> EntryIs(table, name, k)
  }

  /** What tells the names of a table apart: length, last and first character. */
  function Mark(s: string): (int, char, char) {
    if s == [] then (0, ' ', ' ') else (|s|, s[|s| - 1], s[0])
  }

  predicate Apart(table: P.Names16) {
    forall i, j :: 0 <= i < j < |table| ==> Mark(table[i].0) != Mark(table[j].0)
  }

  lemma {:induction false} FindsFirst(table: P.Names16, name: Str, i: nat)
    requires i < |table| && table[i].0 == name && table[i].1 < 16 && forall j :: 0 <= j < i ==> table[j].0 != name
    ensures P.FindBit(table, name) == Some(table[i].1)
  {
    if i > 0 {
      assert table[0].0 != name;
      FindsFirst(table[1..], name, i - 1);
    }
  }

  lemma {:induction false} FindsEntry(table: P.Names16, name: Str) returns (i: nat)
    requires P.FindBit(table, name).Some?
    ensures i < |table| && table[i].0 == name && P.FindBit(table, name) == Some(table[i].1)
  {
    if table[0].0 == name {
      i := 0;
    } else {
      var j := FindsEntry(table[1..], name);
      i := j + 1;
    }
  }

  lemma {:induction false} FindBitIff(table: P.Names16, names: nat -> Str, name: Str, k: nat)
    requires InOrder(table, names) && Apart(table)
    ensures P.FindBit(table, name) == Some(k) <==> k < |table| && name == names(k)
  {
    if k < |table| && name == names(k) {
      assert EntryIs(table, names, k);
      assert forall j :: 0 <= j < k ==> Mark(table[j].0) != Mark(table[k].0);
      FindsFirst(table, name, k);
    }
    if P.FindBit(table, name) == Some(k) {
      var i := FindsEntry(table, name);
      assert EntryIs(table, names, i);
    }
  }

  lemma {:induction false} NetTable()
    ensures InOrder(P.NET_ACCESS, NetName) && Apart(P.NET_ACCESS) && |P.NET_ACCESS| == 2
  {
    forall k | 0 <= k < 2 ensures EntryIs(P.NET_ACCESS, NetName, k) {
    }
  }

  lemma {:induction false} AttrTable()
    ensures InOrder(P.MOUNT_ATTRS, AttrName) && Apart(P.MOUNT_ATTRS) && |P.MOUNT_ATTRS| == 4
  {
    forall k | 0 <= k < 4 ensures EntryIs(P.MOUNT_ATTRS, AttrName, k) {
    }
  }

  lemma {:induction false} FsTable()
    ensures InOrder(P.FS_ACCESS, FsName) && |P.FS_ACCESS| == 16
  {
    forall k | 0 <= k < 16 ensures EntryIs(P.FS_ACCESS, FsName, k) {
    }
  }

  /** The marks of the file-system names. */
  function FsMark(k: nat): (int, char, char) {
    [(7, 'e', 'e'), (10, 'e', 'w'), (9, 'e', 'r'), (8, 'r', 'r'), (10, 'r', 'r'), (11, 'e', 'r'), (9, 'r', 'm'), (8, 'r', 'm'),
     (8, 'g', 'm'), (9, 'k', 'm'), (9, 'o', 'm'), (10, 'k', 'm'), (8, 'm', 'm'), (5, 'r', 'r'), (8, 'e', 't'), (9, 'v', 'i')]
      [k % 16]
  }

  lemma {:induction false} FsMarks(k: nat)
    requires k < 16
    ensures Mark(P.FS_ACCESS[k].0) == FsMark(k)
  {
  }

  lemma {:induction false} FsMarksDiffer(i: nat, j: nat)
    requires i < j < 16
    ensures FsMark(i) != FsMark(j)
  {
  }

  lemma {:induction false} FsApart()
    ensures Apart(P.FS_ACCESS)
  {
    forall i, j | 0 <= i < j < |P.FS_ACCESS| ensures Mark(P.FS_ACCESS[i].0) != Mark(P.FS_ACCESS[j].0) {
      FsMarks(i);
      FsMarks(j);
      FsMarksDiffer(i, j);
    }
  }

  // ----- the masks of the C loader

  /** The array lists the name. */
  ghost predicate Lists(items: seq<Value>, name: Str) {
    exists i :: 0 <= i < |items| && StringOf(items[i]) == Some(name)
  }

  predicate NamesRight(v: Value, names: nat -> Str, n: nat) {
    StringOf(v).Some? && exists k :: 0 <= k < n && StringOf(v).value == names(k)
  }

  predicate AllRights(items: seq<Value>, names: nat -> Str, n: nat) {
    items != [] && forall i :: 0 <= i < |items| ==> NamesRight(items[i], names, n)
  }

  /** Every item names one of the n rights, and the mask has exactly the bits of those
      that are named. */
  ghost predicate Grants(items: seq<Value>, names: nat -> Str, n: nat, mask: u64) {
    AllRights(items, names, n) && forall k: nat :: k in Bits(mask) <==> k < n && Lists(items, names(k))
  }

  lemma {:induction false} AccessAcceptedIff(items: seq<Value>, table: P.Names16, names: nat -> Str)
    requires InOrder(table, names) && Apart(table)
    ensures P.AccessOf(items, table).Some? <==> AllRights(items, names, |table|)
  {
    MapAllAt(v => P.NamedBit(table, v), items);
    forall i | 0 <= i < |items| ensures P.NamedBit(table, items[i]).Some? <==> NamesRight(items[i], names, |table|) {
      if StringOf(items[i]).Some? {
        var name := StringOf(items[i]).value;
        if P.FindBit(table, name).Some? {
          FindBitIff(table, names, name, P.FindBit(table, name).value);
        } else if k :| 0 <= k < |table| && name == names(k) {
          FindBitIff(table, names, name, k);
        }
      }
    }
  }

  lemma {:induction false} AccessGrants(items: seq<Value>, table: P.Names16, names: nat -> Str)
    requires InOrder(table, names) && Apart(table) && P.AccessOf(items, table).Some?
    ensures Grants(items, names, |table|, P.AccessOf(items, table).value)
  {
    AccessAcceptedIff(items, table, names);
    P.AccessBits(items, table);
    var mask := P.AccessOf(items, table).value;
    forall k: nat ensures k in Bits(mask) <==> k < |table| && Lists(items, names(k)) {
      if k in Bits(mask) {
        var i :| 0 <= i < |items| && P.NamedBit(table, items[i]) == Some(k);
        FindBitIff(table, names, StringOf(items[i]).value, k);
      }
      if k < |table| && Lists(items, names(k)) {
        var i :| 0 <= i < |items| && StringOf(items[i]) == Some(names(k));
        FindBitIff(table, names, names(k), k);
        assert P.NamedBit(table, items[i]) == Some(k);
      }
    }
  }

  /** The rights of a file-system rule are those that it lists. */
  lemma {:induction false} FsRuleGrants(v: Value)
    requires P.FsRuleOf(v).Some?
    ensures v.Table? && ArrayIn(v.entries, "allowed_access").Some?
    ensures Grants(ArrayIn(v.entries, "allowed_access").value, FsName, 16, P.FsRuleOf(v).value.access)
  {
    FsTable();
    FsApart();
    AccessGrants(ArrayIn(v.entries, "allowed_access").value, P.FS_ACCESS, FsName);
  }

  /** A file-system rule is accepted when it has a path and lists rights only. */
  lemma {:induction false} FsRuleAcceptedIff(v: Value)
    requires v.Table?
    ensures P.FsRuleOf(v).Some? <==>
      && OnlyKeys(v.entries, {"path", "allowed_access"})
      && StringIn(v.entries, "path").Some? && StringIn(v.entries, "path").value != []
      && ArrayIn(v.entries, "allowed_access").Some? && AllRights(ArrayIn(v.entries, "allowed_access").value, FsName, 16)
  {
    FsTable();
    FsApart();
    if ArrayIn(v.entries, "allowed_access").Some? {
      AccessAcceptedIff(ArrayIn(v.entries, "allowed_access").value, P.FS_ACCESS, FsName);
    }
  }

  /** The rights that a layer handles are those that it lists. */
  lemma {:induction false} LayerGrants(v: Value)
    requires P.LayerOf(v).Some?
    ensures v.Table? && ArrayIn(v.entries, "handled_access_fs").Some?
    ensures Grants(ArrayIn(v.entries, "handled_access_fs").value, FsName, 16, P.LayerOf(v).value.handled)
  {
    FsTable();
    FsApart();
    AccessGrants(ArrayIn(v.entries, "handled_access_fs").value, P.FS_ACCESS, FsName);
  }

  /** The rights of a network rule are those that it lists. */
  lemma {:induction false} NetRuleGrants(v: Value)
    requires P.NetRuleOf(v).Some?
    ensures v.Table? && ArrayIn(v.entries, "allowed_access").Some?
    ensures Grants(ArrayIn(v.entries, "allowed_access").value, NetName, 2, P.NetRuleOf(v).value.access)
  {
    NetTable();
    AccessGrants(ArrayIn(v.entries, "allowed_access").value, P.NET_ACCESS, NetName);
  }

  /** The network rights that the policy handles are those that the section lists. */
  lemma {:induction false} NetGrants(ir: Ir, t: Entries)
    requires P.NetIn(ir, t).Some?
    ensures ArrayIn(t, "handled_access_net").Some?
    ensures Grants(ArrayIn(t, "handled_access_net").value, NetName, 2, P.NetIn(ir, t).value.netHandled)
  {
    NetTable();
    AccessGrants(ArrayIn(t, "handled_access_net").value, P.NET_ACCESS, NetName);
  }

  /** The attributes of a mount object are those that it lists, and none when it has
      no list. */
  lemma {:induction false} ObjectGrants(v: Value)
    requires P.ObjectOf(v).Some?
    ensures v.Table?
    ensures match ArrayIn(v.entries, "attrs")
      case None => P.ObjectOf(v).value.attrs == 0
      case Some(items) => Grants(items, AttrName, 4, P.ObjectOf(v).value.attrs)
  {
    AttrTable();
    if ArrayIn(v.entries, "attrs").Some? {
      AccessGrants(ArrayIn(v.entries, "attrs").value, P.MOUNT_ATTRS, AttrName);
    }
  }

  // ----- the masks of the helper, which has tables of its own

  /** Every item names one of the n rights, and the mask has exactly their bits. */
  ghost predicate TextsGrant(items: seq<Str>, names: nat -> Str, n: nat, mask: u64) {
    && items != [] && (forall i :: 0 <= i < |items| ==> exists k :: 0 <= k < n && items[i] == names(k))
    && forall k: nat :: k in Bits(mask) <==> k < n && names(k) in items
  }

  lemma {:induction false} ListGrants(items: seq<Str>, table: P.Names16, names: nat -> Str)
    requires InOrder(table, names) && Apart(table) && R.AccessList(items, table).Some?
    ensures TextsGrant(items, names, |table|, R.AccessList(items, table).value)
  {
    var bits := MapAll(item => R.BitOf(table, item), items).value;
    R.BitsInRange(items, table);
    MapAllAt(item => R.BitOf(table, item), items);
    P.OrAllBits(bits);
    forall i | 0 <= i < |items| ensures bits[i] < |table| && items[i] == names(bits[i]) {
      assert R.BitOf(table, items[i]) == Some(bits[i]);
      FindBitIff(table, names, items[i], bits[i]);
    }
    forall k: nat | k < |table| && names(k) in items ensures k in bits {
      var i :| 0 <= i < |items| && items[i] == names(k);
      assert R.BitOf(table, items[i]) == Some(bits[i]);
      FindBitIff(table, names, items[i], k);
    }
  }

  lemma {:induction false} HelperTables()
    ensures R.FS_TABLE == P.FS_ACCESS && R.NET_TABLE == P.NET_ACCESS && R.ATTR_TABLE == P.MOUNT_ATTRS
  {
  }

  lemma {:induction false} HelperFsRuleGrants(d: R.FsRuleDoc)
    requires R.FsRuleIrOf(d).Some?
    ensures TextsGrant(d.access, FsName, 16, R.FsRuleIrOf(d).value.access)
  {
    HelperTables();
    FsTable();
    FsApart();
    ListGrants(d.access, P.FS_ACCESS, FsName);
  }

  lemma {:induction false} HelperLayerGrants(d: R.FsLayerDoc)
    requires R.FsLayerIrOf(d).Some?
    ensures TextsGrant(d.handled, FsName, 16, R.FsLayerIrOf(d).value.handled)
  {
    HelperTables();
    FsTable();
    FsApart();
    ListGrants(d.handled, P.FS_ACCESS, FsName);
  }

  lemma {:induction false} HelperNetRuleGrants(d: R.NetRuleDoc)
    requires R.NetRuleIrOf(d).Some?
    ensures TextsGrant(d.access, NetName, 2, R.NetRuleIrOf(d).value.access)
  {
    HelperTables();
    NetTable();
    ListGrants(d.access, P.NET_ACCESS, NetName);
  }

  lemma {:induction false} HelperNetGrants(ir: Ir, d: R.NetDoc)
    requires R.NetIr(ir, d).Some?
    ensures TextsGrant(d.handled, NetName, 2, R.NetIr(ir, d).value.netHandled)
  {
    HelperTables();
    NetTable();
    ListGrants(d.handled, P.NET_ACCESS, NetName);
  }

  lemma {:induction false} HelperObjectGrants(d: R.ObjectDoc)
    requires R.ObjectIrOf(d).Some?
    ensures match d.attrs
      case None => R.ObjectIrOf(d).value.attrs == 0
      case Some(items) => TextsGrant(items, AttrName, 4, R.ObjectIrOf(d).value.attrs)
  {
    HelperTables();
    AttrTable();
    if d.attrs.Some? {
      ListGrants(d.attrs.value, P.MOUNT_ATTRS, AttrName);
    }
  }
}
