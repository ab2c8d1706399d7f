/**
 * Node names (`src/name.rs`): validation of the alive and host parts as C
 * strings and the full `alive@host` name. The `ei` length limits
 * (`MAXNODELEN`, `EI_MAXALIVELEN`, `EI_MAXHOSTNAMELEN`) come from the C
 * headers and are a parameter here.
 */
module Names {
  import opened Types

  /** The byte-length limits of the three kinds of name. */
  datatype NameLimits = NameLimits(maxNodeLen: nat, maxAliveLen: nat, maxHostLen: nat)

  /**
   * Limits under which a node name has room for the longest alive name, `@`
   * and the longest host name. Whether the `ei.h` in use satisfies this
   * depends on its version: it fails where all three limits are equal.
   */
  predicate Consistent(limits: NameLimits) {
    limits.maxAliveLen + 1 + limits.maxHostLen <= limits.maxNodeLen
  }

  /** What `ffi::CString` holds: bytes with no zero among them. */
  type CString = s: seq<uint8> | 0 !in s

  /** `NameKind::max_len`: the limit that applies to each kind of name. */
  function MaxLen(limits: NameLimits, kind: NameKind): (n: nat)
    ensures kind.Node? ==> n == limits.maxNodeLen
    ensures kind.Alive? ==> n == limits.maxAliveLen
    ensures kind.Host? ==> n == limits.maxHostLen
  {
    match kind
    case Node => limits.maxNodeLen
    case Alive => limits.maxAliveLen
    case Host => limits.maxHostLen
  }

  /**
   * `NameKind::validate_c_string`: a name longer than the kind's limit is
   * rejected first; otherwise `CString::new` rejects a name with a zero
   * byte, reporting the first one.
   */
  function ValidateCString(limits: NameLimits, kind: NameKind, nameBytes: seq<uint8>): (r: Result<CString>)
    ensures r.Ok? <==> |nameBytes| <= MaxLen(limits, kind) && 0 !in nameBytes
    ensures r.Ok? ==> r.value == nameBytes
    ensures |nameBytes| > MaxLen(limits, kind) ==> r == Err(NameLengthOutOfRange(nameBytes, kind))
    ensures |nameBytes| <= MaxLen(limits, kind) && 0 in nameBytes ==>
      && r.Err? && r.error.NameHasEmbeddedNullByte?
      && r.error.name == nameBytes && r.error.nameKind == kind
      && r.error.position < |nameBytes| && nameBytes[r.error.position] == 0
      && 0 !in nameBytes[..r.error.position]
  {
    if |nameBytes| > MaxLen(limits, kind) then Err(NameLengthOutOfRange(nameBytes, kind))
    else match NulPosition(nameBytes)
      case None => Ok(nameBytes)
      case Some(position) => Err(NameHasEmbeddedNullByte(nameBytes, kind, position))
  }

  /** The `Display` text of a kind of name. */
  function Display(kind: NameKind): (text: string)
    ensures |text| > 5 && text[|text| - 5..] == " name"
  {
    match kind
    case Node => "node name"
    case Alive => "alive name"
    case Host => "host name"
  }

  /** Different kinds are displayed differently. */
  lemma DisplayInjective(a: NameKind, b: NameKind)
    ensures Display(a) == Display(b) <==> a == b
  {
  }

  /** `NodeName`: the full name and its two validated parts, with their accessors. */
  datatype NodeName = NodeName(fullName: CString, aliveName: CString, hostName: CString) {
    function FullName(): CString { fullName }
    function AliveName(): CString { aliveName }
    function HostName(): CString { hostName }
  }

  /**
   * `NodeName::new`: validates the alive name, then the host name, then
   * builds `alive@host` byte by byte. The final `CString::new(..).unwrap()`
   * cannot fail: neither part has a zero byte and `@` is not zero.
   */
  method NewNodeName(limits: NameLimits, aliveName: seq<uint8>, hostName: seq<uint8>) returns (r: Result<NodeName>)
    ensures r.Ok? <==>
      && |aliveName| <= limits.maxAliveLen && 0 !in aliveName
      && |hostName| <= limits.maxHostLen && 0 !in hostName
    ensures ValidateCString(limits, NameKind.Alive, aliveName).Err? ==>
      r == Err(ValidateCString(limits, NameKind.Alive, aliveName).error)
    ensures ValidateCString(limits, NameKind.Alive, aliveName).Ok? && ValidateCString(limits, NameKind.Host, hostName).Err? ==>
      r == Err(ValidateCString(limits, NameKind.Host, hostName).error)
    ensures r.Ok? ==>
      && r.value.AliveName() == aliveName
      && r.value.HostName() == hostName
      && r.value.FullName() == aliveName + [64] + hostName
  {
    var cAliveName :- ValidateCString(limits, NameKind.Alive, aliveName);
    var cHostName :- ValidateCString(limits, NameKind.Host, hostName);
    var fullNameBytes: seq<uint8> := [];
    fullNameBytes := fullNameBytes + aliveName;
    fullNameBytes := fullNameBytes + [64];
    fullNameBytes := fullNameBytes + hostName;
    assert fullNameBytes == aliveName + [64] + hostName;
    var cFullName: CString := fullNameBytes;
    r := Ok(NodeName(cFullName, cAliveName, cHostName));
  }

  /** A full name splits back at its `@` into the two parts it was built from. */
  lemma FullNameSplits(aliveName: seq<uint8>, hostName: seq<uint8>)
    ensures var full := aliveName + [64] + hostName;
      full[..|aliveName|] == aliveName && full[|aliveName|] == 64 && full[|aliveName| + 1..] == hostName
  {
  }

  /** Under consistent limits, the full name of two valid parts is itself a valid node name. */
  lemma FullNameIsNodeName(limits: NameLimits, aliveName: seq<uint8>, hostName: seq<uint8>)
    requires Consistent(limits)
    requires ValidateCString(limits, NameKind.Alive, aliveName).Ok?
    requires ValidateCString(limits, NameKind.Host, hostName).Ok?
    ensures ValidateCString(limits, NameKind.Node, aliveName + [64] + hostName) == Ok(aliveName + [64] + hostName)
  {
    var full := aliveName + [64] + hostName;
    assert 0 !in full by {
      forall i | 0 <= i < |full|
        ensures full[i] != 0
      {
        if i < |aliveName| {
          assert full[i] == aliveName[i];
        } else if i > |aliveName| {
          assert full[i] == hostName[i - |aliveName| - 1];
        }
      }
    }
  }

  /**
   * Under any other limits, the longest valid parts make a full name that
   * the node-name check would refuse: `NodeName::new` never applies it.
   */
  lemma FullNameMayExceedNodeLimit(limits: NameLimits)
    requires !Consistent(limits)
    ensures var aliveName, hostName := seq(limits.maxAliveLen, _ => 0x61 as uint8), seq(limits.maxHostLen, _ => 0x61 as uint8);
      && ValidateCString(limits, NameKind.Alive, aliveName).Ok?
      && ValidateCString(limits, NameKind.Host, hostName).Ok?
      && ValidateCString(limits, NameKind.Node, aliveName + [64] + hostName)
         == Err(NameLengthOutOfRange(aliveName + [64] + hostName, NameKind.Node))
  {
    var aliveName, hostName := seq(limits.maxAliveLen, _ => 0x61 as uint8), seq(limits.maxHostLen, _ => 0x61 as uint8);
    assert 0 !in aliveName by {
      forall i | 0 <= i < |aliveName| ensures aliveName[i] != 0 { }
    }
    assert 0 !in hostName by {
      forall i | 0 <= i < |hostName| ensures hostName[i] != 0 { }
    }
  }
}
