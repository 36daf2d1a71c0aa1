/** The two scripts' prompt tables and the target constants they are built
    from. The password comes from the environment in both scripts and is a
    parameter here.
 */
module Tables {
  import opened Text
  import opened Encoding
  import opened Rules

  /** A Python bytes literal written as text. */
  function Ascii(s: string): Bytes {
    EncodeUtf8(s)
  }

  const TargetName: string := "robin"
  const TargetRoot: Bytes := Ascii("sys0")
  const DecnetArea: nat := 1
  const DecnetNumber: nat := 13
  const TargetDomain: Bytes := Ascii("xile.realm")
  const TargetGatewayAddress: Bytes := Ascii("192.168.0.201")
  const TargetGatewayHostname: Bytes := Ascii("wap.xile.realm")
  const TargetBindServer: Bytes := Ascii("eagle.xile.realm")
  const TargetBindAddress: Bytes := Ascii("192.168.0.2")

  /** The SCSSYSTEMID of a node: its DECnet Phase IV address, area times
      1024 plus the node number. */
  function SystemId(area: nat, number: nat): nat {
    area * 1024 + number
  }

  /** A node number below 1024 can be read back from the system id, and so
      can the area: distinct DECnet addresses give distinct ids. */
  lemma SystemIdDecodes(area: nat, number: nat)
    requires number < 1024
    ensures SystemId(area, number) / 1024 == area
    ensures SystemId(area, number) % 1024 == number
  {
  }

  /** The target's id, 1.13, is 1037. */
  lemma TargetSystemId()
    ensures SystemId(DecnetArea, DecnetNumber) == 1037
    ensures Decimal(SystemId(DecnetArea, DecnetNumber)) == "1037"
  {
  }

  function ScsNode(): Bytes {
    Ascii(TargetName)
  }

  function ScsSystemId(): Bytes {
    Ascii(Decimal(SystemId(DecnetArea, DecnetNumber)))
  }

  /** The DECnet synonym prompt `[ROBIN] : `. */
  function SynonymPrompt(): string {
    "[" + AsciiUpper(TargetName) + "] : "
  }

  /** The DECnet Phase IV address prompt ` [1.13] : `. */
  function Phase4Prompt(): string {
    " [" + Decimal(DecnetArea) + "." + Decimal(DecnetNumber) + "] : "
  }

  const DefaultActions: seq<Bytes> := [[], []]

  function Repeat(b: Bytes, count: nat): (r: seq<Bytes>)
    ensures |r| == count
    ensures forall i :: 0 <= i < count ==> r[i] == b
  {
    seq(count, _ => b)
  }

  function UafActions(password: Bytes): seq<Bytes> {
    [Ascii("MODIFY SYSTEM/NOPWDEXP/NOPWDLIFE/PASS=\"") + password + Ascii("\""), Ascii("EXIT")]
  }

  // -----------------------------------------------------------------------
  // The first script

  /** The first script's action list for each rule name. Every name not
      listed uses the two empty answers of the default list. */
  function CommunityActions(password: Bytes, name: string): seq<Bytes> {
    if name == "ESC" then [[27], [27]]
    else if name == "BOOTMGR" then
      [Ascii("AUTO BOOT"), Ascii("AUTO 5"), Ascii("FLAGS 0"), Ascii("BOOT DKA0 0 1"),
       Ascii("FLAGS 0"), Ascii("BOOT DKA0 0 0")]
    else if name == "SYSBOOT" then
      [Ascii("SET/STARTUP OPA0:"), Ascii("SET WINDOW_SYSTEM 0"), Ascii("SET WRITESYSPARAMS 0"),
       Ascii("CONTINUE"), Ascii("CONTINUE")]
    else if name == "DOLLAR" then
      [Ascii("SET DEF SYS$SYSTEM:"),
       Ascii("RUN SYS$SYSTEM:AUTHORIZE"),
       Ascii("SPAWN"),
       Ascii("@SYS$SYSTEM:STARTUP.COM"),
       Ascii("open/append mpd sys$system:modparams.dat"),
       Ascii("write mpd \"SCSNODE=\"\"\"") + ScsNode() + Ascii("\"\""),
       Ascii("write mpd \"SCSSYSTEMID=\"") + ScsSystemId(),
       Ascii("close mpd"),
       Ascii("set noverify"),
       Ascii("@sys$update:autogen GETDATA SETPARAMS"),
       Ascii("mcr sysman shutdown node /auto /min=0"),
       Ascii("wait 00:10"),
       Ascii("@sys$manager:net$configure"),
       Ascii("@sys$manager:tcpip$config"),
       Ascii("@sys$startup:ssh$startup.com")]
    else if name == "DECNET_OPTION" then [Ascii("0")]
    else if name == "DECNET_DOMAIN" then [Ascii("local")]
    else if name == "DECNET_LOCAL" then [Ascii("LOCAL:.") + ScsNode()]
    else if name == "UAF" then UafActions(password)
    else if name == "INTSET" then [[], [], []]
    else if name == "USERNAME" then Repeat(Ascii("SYSTEM"), 5)
    else if name == "PASSWORD" then Repeat(password, 3)
    else if name == "TCPIP_CONFIG" then
      [Ascii("1"), Ascii("1"), Ascii("2"), Ascii("0"), Ascii("1"), Ascii("3"), Ascii("E"),
       Ascii("E"), Ascii("3"), Ascii("4"), Ascii("E"), Ascii("2"), Ascii("1"), Ascii("1"),
       Ascii("E"), Ascii("6"), Ascii("E")]
    else if name == "TCPIP_NODE_MANAGE" then [ScsNode()]
    else if name == "TCPIP_DOMAIN" then [TargetDomain]
    else if name == "TCPIP_GATEWAY_ADDRESS" then [TargetGatewayAddress]
    else if name == "TCPIP_GATEWAY_HOSTNAME" then [TargetGatewayHostname]
    else if name == "TCPIP_BIND_SERVER" then [TargetBindServer, []]
    else if name == "TCPIP_BIND_ADDRESS" then [TargetBindAddress]
    else if name == "TCPIP_SYSTEM_DEVICE" then [Ascii("sys$sysdevice:")]
    else if name == "TCPIP_SYSTEM_ROOT" then [TargetRoot]
    else DefaultActions
  }

  /** The first script's boot, login and account prompts. */
  function CommunityBootPrompts(): seq<(string, string)> {
    [("Press <ESC>", "ESC"),
     ("BOOTMGR> ", "BOOTMGR"),
     ("SYSBOOT> ", "SYSBOOT"),
     ("\r\n\0$ ", "DOLLAR"),
     ("\r\0$ ", "DOLLAR"),
     ("UAF> ", "UAF"),
     ("job terminated at ", "INTSET"),
     ("\r\nUsername: ", "USERNAME"),
     ("\n\rUsername: ", "USERNAME"),
     ("\r\nPassword: ", "PASSWORD"),
     ("\n\rPassword: ", "PASSWORD")]
  }

  /** The first script's DECnet configuration prompts. */
  function CommunityDecnetPrompts(): seq<(string, string)> {
    [("configuration option to perform? ", "DECNET_OPTION"),
     (",Domain] : ", "DECNET_DOMAIN"),
     ("LOCAL    ", "DECNET_LOCAL"),
     (SynonymPrompt(), "DECNET_SYNONYM"),
     ("[ENDNODE] : ", "DECNET_ENDNODE"),
     (Phase4Prompt(), "DECNET_PHASE4"),
     ("Load MOP on this system? ", "DECNET_MOP"),
     ("apply this configuration? ", "DECNET_APPLY"),
     ("scripts? ", "DECNET_SCRIPTS"),
     ("network? ", "DECNET_START")]
  }

  /** The first script's TCP/IP configuration prompts. */
  function CommunityTcpipPrompts(): seq<(string, string)> {
    [("configuration option: ", "TCPIP_CONFIG"),
     ("Enter name of node to manage ", "TCPIP_NODE_MANAGE"),
     ("Enter system device for ", "TCPIP_SYSTEM_DEVICE"),
     ("Enter system root for ", "TCPIP_SYSTEM_ROOT"),
     ("Enter Internet domain", "TCPIP_DOMAIN"),
     ("domain on live system [NO]: ", "TCPIP_LIVE_DOMAIN"),
     ("DHCP PRIMARY? (Y,N,HELP)", "TCPIP_DHCP_PRIMARY"),
     ("Do you want to configure dynamic ROUTED or GATED ", "TCPIP_ROUTING"),
     ("configure a default route [YES]: ", "TCPIP_ROUTED2"),
     ("host name or address: ", "TCPIP_GATEWAY_ADDRESS"),
     ("Enter the Default Gateway host name ", "TCPIP_GATEWAY_HOSTNAME"),
     ("Do you want to reconfigure BIND [NO]: ", "TCPIP_BIND_RECONFIGURE"),
     ("BIND server name: ", "TCPIP_BIND_SERVER"),
     ("Enter Internet address for ", "TCPIP_BIND_ADDRESS"),
     ("Press <ENTER> key to continue", "TCPIP_BIND_ERROR")]
  }

  /** The first script's patterns and names, in table order. */
  function CommunityPrompts(): seq<(string, string)> {
    CommunityBootPrompts() + CommunityDecnetPrompts() + CommunityTcpipPrompts()
  }

  /** The first script's prompt table for a given password. */
  function CommunityTable(password: string): (table: Table)
    ensures SharedActions(table)
  {
    Build(CommunityPrompts(), n => CommunityActions(EncodeUtf8(password), n))
  }

  // -----------------------------------------------------------------------
  // The 9.2-2 script

  /** The 9.2-2 script's action list for each rule name. Every name not
      listed uses the single empty answer of its DECnet default list. */
  function V922Actions(password: Bytes, name: string): seq<Bytes> {
    if name == "ESC" then [[27]]
    else if name == "BOOTMGR" then [Ascii("AUTO BOOT DKA0"), Ascii("BOOT DKA0 0 1")]
    else if name == "SYSBOOT" then
      [Ascii("SET/STARTUP OPA0:"), Ascii("SET WINDOW_SYSTEM 0"), Ascii("SET WRITESYSPARAMS 0"),
       Ascii("CONTINUE")]
    else if name == "DOLLAR" then
      [Ascii("SET DEF SYS$SYSTEM:"),
       Ascii("RUN SYS$SYSTEM:AUTHORIZE"),
       Ascii("SPAWN"),
       Ascii("@SYS$SYSTEM:STARTUP.COM"),
       Ascii("open/append mpd sys$system:modparams.dat"),
       Ascii("write mpd \"SCSNODE=\"\"\"") + ScsNode() + Ascii("\"\""),
       Ascii("write mpd \"SCSSYSTEMID=\"") + ScsSystemId(),
       Ascii("close mpd"),
       Ascii("set noverify"),
       Ascii("@sys$update:autogen GETDATA SETPARAMS"),
       Ascii("mcr sysman shutdown node /auto /min=0"),
       Ascii("wait 00:10"),
       Ascii("logout"),
       Ascii("@sys$manager:net$configure")]
    else if name == "DECNET_DOMAIN" then [Ascii("local")]
    else if name == "DECNET_LOCAL" then [Ascii("LOCAL:.") + ScsNode()]
    else if name == "UAF" then UafActions(password)
    else if name == "INTSET" then [[], [], []]
    else if name == "USERNAME" then Repeat(Ascii("SYSTEM"), 5)
    else if name == "PASSWORD" then Repeat(password, 3)
    else [[]]
  }

  /** The 9.2-2 script's boot, login and account prompts; they differ from
      the first script's only in the second DOLLAR pattern. */
  function V922BootPrompts(): seq<(string, string)> {
    [("Press <ESC>", "ESC"),
     ("BOOTMGR> ", "BOOTMGR"),
     ("SYSBOOT> ", "SYSBOOT"),
     ("\r\n\0$ ", "DOLLAR"),
     ("\n\r\0$ ", "DOLLAR"),
     ("UAF> ", "UAF"),
     ("job terminated at ", "INTSET"),
     ("\r\nUsername: ", "USERNAME"),
     ("\n\rUsername: ", "USERNAME"),
     ("\r\nPassword: ", "PASSWORD"),
     ("\n\rPassword: ", "PASSWORD")]
  }

  /** The 9.2-2 script's DECnet configuration prompts. */
  function V922DecnetPrompts(): seq<(string, string)> {
    [(",Domain] : ", "DECNET_DOMAIN"),
     ("LOCAL    ", "DECNET_LOCAL"),
     (SynonymPrompt(), "DECNET_SYNONYM"),
     ("[ENDNODE] : ", "DECNET_ENDNODE"),
     (Phase4Prompt(), "DECNET_PHASE4"),
     ("scripts? ", "DECNET_SCRIPTS"),
     ("network? ", "DECNET_START")]
  }

  /** The 9.2-2 script's patterns and names, in table order. */
  function V922Prompts(): seq<(string, string)> {
    V922BootPrompts() + V922DecnetPrompts()
  }

  /** The 9.2-2 script's prompt table for a given password. */
  function V922Table(password: string): (table: Table)
    ensures SharedActions(table)
  {
    Build(V922Prompts(), n => V922Actions(EncodeUtf8(password), n))
  }
}
