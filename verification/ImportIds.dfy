/** Import identifiers: vcd/datasource_vcd_resource_list.go prints them, the importers
    of the resources take them apart again. */
module ImportIds {
  import opened Options
  import opened Text

  datatype ResourceRef = ResourceRef(
    name: string,
    id: string,
    href: string,
    parent: string,
    importId: bool,         // import by id instead of by name
    resourceType: string)   // overrides the type of the list when not empty

  // -------------------------------------------------------------- the printer

  function Identifier(ref: ResourceRef): string {
    if ref.importId then ref.id else ref.name
  }

  function TypeOf(ref: ResourceRef, resType: string): string {
    if ref.resourceType != "" then ref.resourceType else resType
  }

  /** The id written in an import block. */
  function BlockId(ancestors: seq<string>, ref: ResourceRef, importSeparator: string): string {
    Join(ancestors + [Identifier(ref)], importSeparator)
  }

  /** The argument of a printed "terraform import" command: unlike the block, it has a
      separator in front of the identifier even without ancestors. */
  function CommandId(ancestors: seq<string>, ref: ResourceRef, importSeparator: string): string {
    Join(ancestors, importSeparator) + importSeparator + Identifier(ref)
  }

  function Line(mode: string, nameIdSeparator: string, importSeparator: string, resType: string,
                ancestors: seq<string>, ref: ResourceRef): (line: Option<string>)
  {
    match mode
    case "name" => Some(ref.name)
    case "id" => Some(ref.id)
    case "name_id" => Some(ref.name + nameIdSeparator + ref.id)
    case "hierarchy" =>
      Some(Join(ancestors, nameIdSeparator) + nameIdSeparator
           + (if ref.parent != "" then ref.parent + nameIdSeparator else "") + ref.name)
    case "href" => Some(ref.href)
    case "import" =>
      Some("terraform import " + TypeOf(ref, resType) + "." + ref.name + " "
           + CommandId(ancestors, ref, importSeparator))
    case _ => None
  }

  /** The references the name filter keeps: a pattern that finds nothing, or only the
      empty text, drops the reference. */
  function Kept(refs: seq<ResourceRef>, finds: Option<string -> string>): (kept: seq<ResourceRef>) {
    if refs == [] then []
    else
      var last := refs[|refs| - 1];
      var before := Kept(refs[..|refs| - 1], finds);
      if finds.Some? && finds.value(last.name) == "" then before else before + [last]
  }

  /** The filter takes each reference on its own and keeps the order: without a pattern, or
      when it finds some text in the name, the reference stays. */
  lemma {:induction false} KeptEach(refs: seq<ResourceRef>, more: seq<ResourceRef>, finds: Option<string -> string>)
    ensures Kept(refs + more, finds) == Kept(refs, finds) + Kept(more, finds)
    ensures |more| == 1 ==>
              Kept(more, finds) == if finds.None? || finds.value(more[0].name) != "" then more else []
  {
    if more == [] {
      assert refs + more == refs;
    } else {
      var n := |more| - 1;
      assert (refs + more)[..|refs + more| - 1] == refs + more[..n];
      KeptEach(refs, more[..n], finds);
      if n == 0 {
        assert more[..n] == [] && more == [more[0]];
      }
    }
  }

  const MODES := {"name", "id", "name_id", "hierarchy", "href", "import"}

  method GenericResourceList(mode: string, nameIdSeparator: string, importSeparator: string,
                             finds: Option<string -> string>, resType: string,
                             ancestors: seq<string>, refs: seq<ResourceRef>)
    returns (list: seq<string>, blockIds: seq<string>)
    ensures var kept := Kept(refs, finds);
            && |list| == (if mode in MODES then |kept| else 0)
            && (forall i :: 0 <= i < |list| ==>
                  Some(list[i]) == Line(mode, nameIdSeparator, importSeparator, resType, ancestors, kept[i]))
            && |blockIds| == (if mode == "import" then |kept| else 0)
            && (forall i :: 0 <= i < |blockIds| ==> blockIds[i] == BlockId(ancestors, kept[i], importSeparator))
  {
    list, blockIds := [], [];
    for n := 0 to |refs|
      invariant |list| == if mode in MODES then |Kept(refs[..n], finds)| else 0
      invariant forall i :: 0 <= i < |list| ==>
                  Some(list[i])
                  == Line(mode, nameIdSeparator, importSeparator, resType, ancestors, Kept(refs[..n], finds)[i])
      invariant |blockIds| == if mode == "import" then |Kept(refs[..n], finds)| else 0
      invariant forall i :: 0 <= i < |blockIds| ==>
                  blockIds[i] == BlockId(ancestors, Kept(refs[..n], finds)[i], importSeparator)
    {
      var ref := refs[n];
      assert refs[..n + 1][..n] == refs[..n];
      if finds.Some? && finds.value(ref.name) == "" {
        continue;
      }
      var line, blockId := PrintReference(mode, nameIdSeparator, importSeparator, resType, ancestors, ref);
      if line.Some? {
        list := list + [line.value];
      }
      if blockId.Some? {
        blockIds := blockIds + [blockId.value];
      }
    }
    assert refs[..|refs|] == refs;
  }

  /** The switch over the listing mode, for one reference. */
  method PrintReference(mode: string, nameIdSeparator: string, importSeparator: string, resType: string,
                        ancestors: seq<string>, ref: ResourceRef)
    returns (line: Option<string>, blockId: Option<string>)
    ensures line == Line(mode, nameIdSeparator, importSeparator, resType, ancestors, ref)
    ensures line.Some? <==> mode in MODES
    ensures blockId == if mode == "import" then Some(BlockId(ancestors, ref, importSeparator)) else None
  {
    line, blockId := None, None;
    var resourceType := resType;
    if ref.resourceType != "" {
      resourceType := ref.resourceType;
    }
    if mode == "name" {
      line := Some(ref.name);
    } else if mode == "id" {
      line := Some(ref.id);
    } else if mode == "name_id" {
      line := Some(ref.name + nameIdSeparator + ref.id);
    } else if mode == "hierarchy" {
      if ref.parent != "" {
        line := Some(Join(ancestors, nameIdSeparator) + nameIdSeparator
                     + (ref.parent + nameIdSeparator) + ref.name);
      } else {
        line := Some(Join(ancestors, nameIdSeparator) + nameIdSeparator + "" + ref.name);
      }
    } else if mode == "href" {
      line := Some(ref.href);
    } else if mode == "import" {
      var identifier := ref.name;
      if ref.importId {
        identifier := ref.id;
      }
      line := Some("terraform import " + resourceType + "." + ref.name + " "
                   + (Join(ancestors, importSeparator) + importSeparator + identifier));
      JoinSnoc(ancestors, identifier, importSeparator);
      if |ancestors| > 0 {
        blockId := Some(Join(ancestors, importSeparator) + importSeparator + identifier);
      } else {
        blockId := Some(identifier);
      }
    }
  }

  /** What is printed for a reference, mode by mode. */
  lemma LineSpeltOut(nameIdSeparator: string, importSeparator: string, resType: string,
                     ancestors: seq<string>, ref: ResourceRef, other: string)
    ensures Line("name", nameIdSeparator, importSeparator, resType, ancestors, ref) == Some(ref.name)
    ensures Line("id", nameIdSeparator, importSeparator, resType, ancestors, ref) == Some(ref.id)
    ensures Line("href", nameIdSeparator, importSeparator, resType, ancestors, ref) == Some(ref.href)
    ensures Line("name_id", nameIdSeparator, importSeparator, resType, ancestors, ref)
            == Some(ref.name + nameIdSeparator + ref.id)
    ensures Line("hierarchy", nameIdSeparator, importSeparator, resType, ancestors, ref)
            == Some(Join(ancestors, nameIdSeparator) + nameIdSeparator
                    + (if ref.parent == "" then "" else ref.parent + nameIdSeparator) + ref.name)
    ensures Line("import", nameIdSeparator, importSeparator, resType, ancestors, ref)
            == Some("terraform import " + (if ref.resourceType == "" then resType else ref.resourceType)
                    + "." + ref.name + " "
                    + (Join(ancestors, importSeparator) + importSeparator + if ref.importId then ref.id else ref.name))
    ensures other !in {"name", "id", "name_id", "hierarchy", "href", "import"} ==>
              Line(other, nameIdSeparator, importSeparator, resType, ancestors, ref) == None
    ensures BlockId(ancestors, ref, importSeparator)
            == (if ancestors == [] then "" else Join(ancestors, importSeparator) + importSeparator)
               + if ref.importId then ref.id else ref.name
  {
    JoinSnoc(ancestors, Identifier(ref), importSeparator);
    assert "" + Identifier(ref) == Identifier(ref);
  }

  lemma {:induction false} JoinSnoc(parts: seq<string>, last: string, sep: string)
    ensures Join(parts + [last], sep) == if parts == [] then last else Join(parts, sep) + sep + last
  {
    if parts == [] {
    } else if |parts| == 1 {
      assert (parts + [last])[1..] == [last];
    } else {
      JoinSnoc(parts[1..], last, sep);
      assert (parts + [last])[1..] == parts[1..] + [last];
    }
  }

  /** A printed block id splits into exactly the ancestors and the identifier if and only
      if those are split-proof, for any number of ancestors and any separator. */
  lemma BlockIdSplitsBack(ancestors: seq<string>, ref: ResourceRef, sep: string)
    ensures Split(BlockId(ancestors, ref, sep), sep) == ancestors + [Identifier(ref)]
            <==> SplitsBack(ancestors + [Identifier(ref)], sep)
  {
    SplitUndoesJoin(ancestors + [Identifier(ref)], sep);
  }

  /** The command line has the same id as the block with ancestors, and without them it
      always splits into an empty first part that the block does not have. */
  lemma CommandIdSplitsBack(ancestors: seq<string>, ref: ResourceRef, sep: string)
    requires sep != ""
    ensures ancestors != [] ==> CommandId(ancestors, ref, sep) == BlockId(ancestors, ref, sep)
    ensures ancestors == [] ==> Split(CommandId(ancestors, ref, sep), sep) == [""] + Split(Identifier(ref), sep)
    ensures ancestors == [] ==> Split(CommandId(ancestors, ref, sep), sep) != [Identifier(ref)]
  {
    JoinSnoc(ancestors, Identifier(ref), sep);
    if ancestors == [] {
      assert "" + sep == sep && sep[0..] == sep;
      assert CutsCleanly("", sep);
      SplitCons("", Identifier(ref), sep);
      SplitNonEmpty(Identifier(ref), sep);
      assert "" + sep + Identifier(ref) == CommandId(ancestors, ref, sep);
    }
  }

  /** With a one-character separator: parses back exactly when no component has it. */
  lemma BlockIdWithOneCharacter(ancestors: seq<string>, ref: ResourceRef, c: char)
    ensures Split(BlockId(ancestors, ref, [c]), [c]) == ancestors + [Identifier(ref)]
            <==> (forall i :: 0 <= i < |ancestors| ==> c !in ancestors[i]) && c !in Identifier(ref)
  {
    var parts := ancestors + [Identifier(ref)];
    BlockIdSplitsBack(ancestors, ref, [c]);
    SplitsBackSingle(parts, c);
    assert forall i :: 0 <= i < |ancestors| ==> parts[i] == ancestors[i];
    assert parts[|ancestors|] == Identifier(ref);
  }

  lemma DashCutsEarly()
    ensures !CutsCleanly("a-", "--") && !Contains("a-", "--") && !Contains("b", "--")
  {
    var s, rest := "a-" + "--", "---";
    assert s[1..] == rest && rest[..2] == "--" && s[..2] == "a-";
    assert StartsWith(rest, "--") && !StartsWith(s, "--");
    assert Index(s, "--") == 1;
    forall i | 0 <= i <= 2 ensures !StartsWith("a-"[i..], "--") {
      if i == 0 { assert "a-"[0..][..2] == "a-"; }
    }
  }

  /** With a longer separator it is not enough that no component contains it. */
  lemma LongSeparatorWitness()
    ensures !Contains("a-", "--") && !Contains("b", "--")
    ensures Split(Join(["a-", "b"], "--"), "--") != ["a-", "b"]
  {
    DashCutsEarly();
    SplitUndoesJoin(["a-", "b"], "--");
    assert ["a-", "b"][0] == "a-";
  }

  // ------------------------------------------------------------ the importers

  datatype Import =
    | Refused                       // the help text
    | Panics                        // index out of range
    | Parts(fields: seq<string>)    // what the importer looks up and sets verbatim
    | Lists(org: string, vdc: string, name: string)

  /** natRuleImport: org, vdc, edge gateway, rule id. */
  function NatImport(id: string, sep: string): Import {
    var uri := Split(id, sep);
    if |uri| != 4 then Refused else Parts([uri[0], uri[1], uri[2], uri[3]])
  }

  /** resourceVcdGlobalRoleImport: the name of the role. */
  function GlobalRoleImport(id: string, sep: string): Import {
    var uri := Split(id, sep);
    if |uri| != 1 then Refused else Parts([uri[0]])
  }

  /** resourceVcdCatalogImport: org, catalog. */
  function CatalogImport(id: string, sep: string): Import {
    var uri := Split(id, sep);
    if |uri| != 2 then Refused else Parts([uri[0], uri[1]])
  }

  /** resourceVcdCatalogItemImport: org, catalog, item, none empty. */
  function CatalogItemImport(id: string, sep: string): Import {
    var uri := Split(id, sep);
    if |uri| != 3 then Refused
    else if uri[0] == "" || uri[1] == "" || uri[2] == "" then Refused
    else Parts([uri[0], uri[1], uri[2]])
  }

  /** resourceVcdIndependentDiskImport. */
  function DiskImport(id: string, sep: string): Import {
    var uri := Split(id, sep);
    if |uri| != 3 && |uri| != 2 then Refused
    else if Contains(id, "list@") then
      var org := Split(uri[0], "@");
      if |org| != 2 then Refused
      else Lists(org[1], uri[1], if |uri| == 3 then uri[2] else "")
    else if |uri| == 2 then Panics
    else Parts([uri[0], uri[1], uri[2]])
  }

  /** The NAT importer accepts exactly the joinings of four split-proof fields and hands
      those very fields on. */
  lemma NatImportIff(id: string, sep: string, org: string, vdc: string, edge: string, rule: string)
    ensures NatImport(id, sep) == Parts([org, vdc, edge, rule])
            <==> id == Join([org, vdc, edge, rule], sep) && SplitsBack([org, vdc, edge, rule], sep)
  {
    var parts := [org, vdc, edge, rule];
    SplitsIntoIff(id, sep, parts);
    var uri := Split(id, sep);
    if |uri| == 4 {
      assert uri == [uri[0], uri[1], uri[2], uri[3]];
    }
  }

  lemma GlobalRoleImportIff(id: string, sep: string, role: string)
    ensures GlobalRoleImport(id, sep) == Parts([role]) <==> id == role && SplitsBack([role], sep)
  {
    SplitsIntoIff(id, sep, [role]);
    var uri := Split(id, sep);
    if |uri| == 1 {
      assert uri == [uri[0]];
    }
  }

  lemma CatalogImportIff(id: string, sep: string, org: string, catalog: string)
    ensures CatalogImport(id, sep) == Parts([org, catalog])
            <==> id == Join([org, catalog], sep) && SplitsBack([org, catalog], sep)
  {
    SplitsIntoIff(id, sep, [org, catalog]);
    var uri := Split(id, sep);
    if |uri| == 2 {
      assert uri == [uri[0], uri[1]];
    }
  }

  lemma CatalogItemImportIff(id: string, sep: string, org: string, catalog: string, item: string)
    ensures CatalogItemImport(id, sep) == Parts([org, catalog, item])
            <==> id == Join([org, catalog, item], sep) && SplitsBack([org, catalog, item], sep)
                 && org != "" && catalog != "" && item != ""
  {
    var parts := [org, catalog, item];
    SplitsIntoIff(id, sep, parts);
    var uri := Split(id, sep);
    if |uri| == 3 {
      assert uri == [uri[0], uri[1], uri[2]];
    }
  }

  /** The disk importer crashes on exactly the two-part ids without "list@", although its
      length check lets two parts through. */
  lemma DiskImportPanicsIff(id: string, sep: string)
    ensures DiskImport(id, sep) == Panics
            <==> !Contains(id, "list@")
                 && exists org, vdc :: id == Join([org, vdc], sep) && SplitsBack([org, vdc], sep)
  {
    var uri := Split(id, sep);
    if |uri| == 2 {
      assert uri == [uri[0], uri[1]];
      SplitsIntoIff(id, sep, [uri[0], uri[1]]);
    }
    forall org, vdc | id == Join([org, vdc], sep) && SplitsBack([org, vdc], sep) ensures |uri| == 2 {
      SplitsIntoIff(id, sep, [org, vdc]);
    }
  }

  lemma DiskImportIff(id: string, sep: string, org: string, vdc: string, disk: string)
    ensures DiskImport(id, sep) == Parts([org, vdc, disk])
            <==> id == Join([org, vdc, disk], sep) && SplitsBack([org, vdc, disk], sep)
                 && !Contains(id, "list@")
  {
    SplitsIntoIff(id, sep, [org, vdc, disk]);
    var uri := Split(id, sep);
    if |uri| == 3 {
      assert uri == [uri[0], uri[1], uri[2]];
    }
  }

  /** The listing mode of the disk importer: two or three parts, the first of which is
      something, '@' and the organisation; without a third part all disks are listed. */
  lemma DiskImportListsIff(id: string, sep: string, org: string, vdc: string, name: string)
    ensures DiskImport(id, sep) == Lists(org, vdc, name)
            <==> Contains(id, "list@")
                 && exists prefix ::
                      && '@' !in prefix && '@' !in org
                      && (Split(id, sep) == [prefix + "@" + org, vdc, name]
                          || (Split(id, sep) == [prefix + "@" + org, vdc] && name == ""))
  {
    var uri := Split(id, sep);
    if DiskImport(id, sep) == Lists(org, vdc, name) {
      var parts := Split(uri[0], "@");
      OrgAfterAt(uri[0], parts[0], org);
      assert parts == [parts[0], org];
      assert |uri| == 2 ==> uri == [uri[0], uri[1]];
      assert |uri| == 3 ==> uri == [uri[0], uri[1], uri[2]];
    }
    forall prefix | '@' !in prefix && '@' !in org && (uri == [prefix + "@" + org, vdc, name]
                                                      || (uri == [prefix + "@" + org, vdc] && name == ""))
      ensures Contains(id, "list@") ==> DiskImport(id, sep) == Lists(org, vdc, name)
    {
      OrgAfterAt(uri[0], prefix, org);
    }
  }

  lemma OrgAfterAt(s: string, prefix: string, org: string)
    ensures Split(s, "@") == [prefix, org] <==> s == prefix + "@" + org && '@' !in prefix && '@' !in org
  {
    SplitsIntoIff(s, "@", [prefix, org]);
    SplitsBackSingle([prefix, org], '@');
    assert Join([prefix, org], "@") == prefix + "@" + Join([org], "@");
    assert [prefix, org][0] == prefix && [prefix, org][1] == org;
  }

  /** What nsxvNatRuleList prints for a rule is what natRuleImport reads back, exactly
      when the four fields are split-proof. */
  lemma NatListRoundTrip(org: string, vdc: string, edge: string, rule: string, sep: string)
    ensures var ref := ResourceRef("", rule, "", edge, true, "");
            NatImport(BlockId([org, vdc, edge], ref, sep), sep) == Parts([org, vdc, edge, rule])
            <==> SplitsBack([org, vdc, edge, rule], sep)
  {
    assert [org, vdc, edge] + [rule] == [org, vdc, edge, rule];
    NatImportIff(Join([org, vdc, edge, rule], sep), sep, org, vdc, edge, rule);
  }

  /** catalogList lists by name under the organization; resourceVcdCatalogImport reads it. */
  lemma CatalogListRoundTrip(org: string, catalog: string, id: string, href: string, sep: string)
    ensures var ref := ResourceRef(catalog, id, href, "", false, "");
            CatalogImport(BlockId([org], ref, sep), sep) == Parts([org, catalog])
            <==> SplitsBack([org, catalog], sep)
  {
    assert [org] + [catalog] == [org, catalog];
    CatalogImportIff(Join([org, catalog], sep), sep, org, catalog);
  }

  /** globalRolesList has no ancestors: the printed block is read back exactly when the name
      is split-proof, but the printed command is always refused. */
  lemma GlobalRoleListRoundTrip(role: string, id: string, sep: string)
    requires sep != ""
    ensures var ref := ResourceRef(role, id, "", "", false, "");
            && (GlobalRoleImport(BlockId([], ref, sep), sep) == Parts([role]) <==> !Contains(role, sep))
            && GlobalRoleImport(CommandId([], ref, sep), sep) == Refused
  {
    var ref := ResourceRef(role, id, "", "", false, "");
    assert [] + [role] == [role];
    GlobalRoleImportIff(BlockId([], ref, sep), sep, role);
    CommandIdSplitsBack([], ref, sep);
    SplitNonEmpty(role, sep);
  }
}
