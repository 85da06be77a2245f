/** The curated whale addresses and the label lookup. The lookup compares
    addresses with both sides lower-cased; lower-casing is modelled on the ASCII
    letters, the only letters an address holds. */
module Whales {
  import opened Wrappers
  import Js

  datatype WhaleAddress = WhaleAddress(address: string, whaleLabel: string)

  /** The twenty known addresses, in list order. */
  const Address1: string := "0x20e80459dc73ba4d86db04e9e55976f2d3a9bff0"
  const Address2: string := "0x4e5b2e1dc63f6b91cb6cd759936495434c7e972f"
  const Address3: string := "0x84f1c1ad59e3c2c53c0b6e43f9b8e8c3e9dd1e5a"
  const Address4: string := "0x2c2d72aa9f8c5b8e2a3f1d4e5c6b7a8f9d0e1c2b"
  const Address5: string := "0x5d6e7f8a9b0c1d2e3f4a5b6c7d8e9f0a1b2c3d4e"
  const Address6: string := "0x9a8b7c6d5e4f3a2b1c0d9e8f7a6b5c4d3e2f1a0b"
  const Address7: string := "0x1f2e3d4c5b6a7089fedcba9876543210abcdef12"
  const Address8: string := "0x7890abcdef1234567890abcdef1234567890abcd"
  const Address9: string := "0xabcdef1234567890abcdef1234567890abcdef12"
  const Address10: string := "0xfedcba0987654321fedcba0987654321fedcba09"
  const Address11: string := "0x1234567890abcdef1234567890abcdef12345678"
  const Address12: string := "0x0987654321fedcba0987654321fedcba09876543"
  const Address13: string := "0x2468ace02468ace02468ace02468ace024680000"
  const Address14: string := "0x13579bdf13579bdf13579bdf13579bdf13579bdf"
  const Address15: string := "0xdeadbeef00000000deadbeef00000000deadbeef"
  const Address16: string := "0xcafebabe00000000cafebabe00000000cafebabe"
  const Address17: string := "0xbadc0ffee0ddf00dbadc0ffee0ddf00dbadc0ffe"
  const Address18: string := "0x0ddba110ddba110ddba110ddba110ddba110ddba"
  const Address19: string := "0xfaceb00cfaceb00cfaceb00cfaceb00cfaceb00c"
  const Address20: string := "0xc0dec0dec0dec0dec0dec0dec0dec0dec0dec0de"

  /** The twenty known whales, "Whale 1" to "Whale 20", in list order. */
  const WhaleAddressList: seq<WhaleAddress> := [
    WhaleAddress(Address1, "Whale 1"),
    WhaleAddress(Address2, "Whale 2"),
    WhaleAddress(Address3, "Whale 3"),
    WhaleAddress(Address4, "Whale 4"),
    WhaleAddress(Address5, "Whale 5"),
    WhaleAddress(Address6, "Whale 6"),
    WhaleAddress(Address7, "Whale 7"),
    WhaleAddress(Address8, "Whale 8"),
    WhaleAddress(Address9, "Whale 9"),
    WhaleAddress(Address10, "Whale 10"),
    WhaleAddress(Address11, "Whale 11"),
    WhaleAddress(Address12, "Whale 12"),
    WhaleAddress(Address13, "Whale 13"),
    WhaleAddress(Address14, "Whale 14"),
    WhaleAddress(Address15, "Whale 15"),
    WhaleAddress(Address16, "Whale 16"),
    WhaleAddress(Address17, "Whale 17"),
    WhaleAddress(Address18, "Whale 18"),
    WhaleAddress(Address19, "Whale 19"),
    WhaleAddress(Address20, "Whale 20")
  ]

  function LowerChar(c: char): char {
    if 'A' <= c <= 'Z' then (c as int - 'A' as int + 'a' as int) as char else c
  }

  function UpperChar(c: char): char {
    if 'a' <= c <= 'z' then (c as int - 'a' as int + 'A' as int) as char else c
  }

  /** `toLowerCase` on ASCII letters; every other character is kept. */
  function ToLower(s: string): (r: string)
    ensures |r| == |s|
    ensures forall i :: 0 <= i < |s| ==> r[i] == LowerChar(s[i])
  {
    seq(|s|, i requires 0 <= i < |s| => LowerChar(s[i]))
  }

  /** `toUpperCase` on ASCII letters, to state that the lookup ignores case. */
  function ToUpper(s: string): (r: string)
    ensures |r| == |s|
    ensures forall i :: 0 <= i < |s| ==> r[i] == UpperChar(s[i])
  {
    seq(|s|, i requires 0 <= i < |s| => UpperChar(s[i]))
  }

  /** The index of the first whale whose lower-cased address equals `lowered`, the
      lower-cased query. */
  function FindWhale(ws: seq<WhaleAddress>, lowered: string): (r: Option<nat>)
    ensures r.None? <==> forall i :: 0 <= i < |ws| ==> ToLower(ws[i].address) != lowered
    ensures r.Some? ==> r.value < |ws| && ToLower(ws[r.value].address) == lowered
                        && forall i :: 0 <= i < r.value ==> ToLower(ws[i].address) != lowered
  {
    if ws == [] then None
    else if ToLower(ws[0].address) == lowered then Some(0)
    else
      match FindWhale(ws[1..], lowered)
      case None => None
      case Some(j) => Some(j + 1)
  }

  /** The label of the first whale of `ws` whose address matches the query ignoring
      case (`find`, then `?.label`). */
  function LabelIn(ws: seq<WhaleAddress>, address: string): (r: Option<string>)
    ensures r.None? <==> forall w :: w in ws ==> ToLower(w.address) != ToLower(address)
    ensures r.Some? ==> exists i :: 0 <= i < |ws|
                          && ToLower(ws[i].address) == ToLower(address)
                          && r.value == ws[i].whaleLabel
                          && forall j :: 0 <= j < i ==> ToLower(ws[j].address) != ToLower(address)
  {
    var found := FindWhale(ws, ToLower(address));
    if found.None? then
      assert forall w :: w in ws ==> ToLower(w.address) != ToLower(address) by {
        forall w | w in ws ensures ToLower(w.address) != ToLower(address) {
          var i :| 0 <= i < |ws| && ws[i] == w;
        }
      }
      None
    else Some(ws[found.value].whaleLabel)
  }

  /** `getWhaleLabel`: the label of the first whale whose address matches the query
      ignoring case, and None (undefined) when none does. */
  function GetWhaleLabel(address: string): (r: Option<string>)
    ensures r.None? <==> forall w :: w in WhaleAddressList ==> ToLower(w.address) != ToLower(address)
    ensures r.Some? ==> exists i :: 0 <= i < |WhaleAddressList|
                          && ToLower(WhaleAddressList[i].address) == ToLower(address)
                          && r.value == WhaleAddressList[i].whaleLabel
                          && forall j :: 0 <= j < i ==> ToLower(WhaleAddressList[j].address) != ToLower(address)
  {
    LabelIn(WhaleAddressList, address)
  }

  /** Lower-casing forgets the case: an address in upper case, or already lower
      case, finds the same label. */
  lemma {:induction false} LabelIgnoresCase(address: string)
    ensures GetWhaleLabel(ToUpper(address)) == GetWhaleLabel(address)
    ensures GetWhaleLabel(ToLower(address)) == GetWhaleLabel(address)
  {
    assert ToLower(ToUpper(address)) == ToLower(address) by {
      forall i | 0 <= i < |address| ensures LowerChar(UpperChar(address[i])) == LowerChar(address[i]) {
      }
    }
    assert ToLower(ToLower(address)) == ToLower(address);
    LabelInSeesLowered(WhaleAddressList, ToUpper(address), address);
    LabelInSeesLowered(WhaleAddressList, ToLower(address), address);
  }

  /** The lookup reads the query only through its lower-cased form. */
  lemma LabelInSeesLowered(ws: seq<WhaleAddress>, a: string, b: string)
    requires ToLower(a) == ToLower(b)
    ensures LabelIn(ws, a) == LabelIn(ws, b)
  {
  }

  /** The first two hexadecimal digits of each listed address, in list order. */
  const LeadingDigits: seq<(char, char)> := [
    ('2', '0'), ('4', 'e'), ('8', '4'), ('2', 'c'), ('5', 'd'), ('9', 'a'), ('1', 'f'), ('7', '8'), ('a', 'b'), ('f', 'e'), ('1', '2'), ('0', '9'), ('2', '4'), ('1', '3'), ('d', 'e'), ('c', 'a'), ('b', 'a'), ('0', 'd'), ('f', 'a'), ('c', '0')
  ]

  /** The addresses of the list, in list order. */
  const Addresses: seq<string> := [
    Address1, Address2, Address3, Address4, Address5, Address6, Address7, Address8, Address9, Address10,
    Address11, Address12, Address13, Address14, Address15, Address16, Address17, Address18, Address19, Address20
  ]

  lemma AddressesListed()
    ensures |Addresses| == |WhaleAddressList|
    ensures forall i :: 0 <= i < |WhaleAddressList| ==> WhaleAddressList[i].address == Addresses[i]
  {
  }

  lemma LeadingDigitsListed()
    ensures |LeadingDigits| == |Addresses|
    ensures forall i :: 0 <= i < |Addresses| ==>
              |Addresses[i]| == 42 && (Addresses[i][2], Addresses[i][3]) == LeadingDigits[i]
  {
  }

  lemma LeadingDigitsDistinct()
    ensures forall i, j :: 0 <= i < j < |LeadingDigits| ==> LeadingDigits[i] != LeadingDigits[j]
  {
  }

  /** The leading digits are digits or lower-case letters, so lower-casing keeps
      them. */
  lemma LeadingDigitsLower()
    ensures forall k :: 0 <= k < |LeadingDigits| ==>
              LowerChar(LeadingDigits[k].0) == LeadingDigits[k].0 && LowerChar(LeadingDigits[k].1) == LeadingDigits[k].1
  {
  }

  /** Two different entries stay different after lower-casing. */
  lemma LowerCasedDistinct(i: nat, j: nat)
    requires i < |WhaleAddressList| && j < |WhaleAddressList| && i != j
    ensures ToLower(WhaleAddressList[i].address) != ToLower(WhaleAddressList[j].address)
  {
    AddressesListed();
    LeadingDigitsListed();
    LeadingDigitsDistinct();
    LeadingDigitsLower();
    var a, b := ToLower(Addresses[i]), ToLower(Addresses[j]);
    assert (a[2], a[3]) == LeadingDigits[i];
    assert (b[2], b[3]) == LeadingDigits[j];
    if i < j {
      assert LeadingDigits[i] != LeadingDigits[j];
    } else {
      assert LeadingDigits[j] != LeadingDigits[i];
    }
  }

  /** Every listed address finds its own label, which is "Whale " and its position
      counted from 1. */
  lemma {:induction false} ListedAddressesLabelled()
    ensures forall i :: 0 <= i < |WhaleAddressList| ==>
              GetWhaleLabel(WhaleAddressList[i].address) == Some(WhaleAddressList[i].whaleLabel)
    ensures forall i :: 0 <= i < |WhaleAddressList| ==>
              WhaleAddressList[i].whaleLabel == "Whale " + Js.DecimalString(i + 1)
  {
    var ws := WhaleAddressList;
    forall i | 0 <= i < |ws|
      ensures GetWhaleLabel(ws[i].address) == Some(ws[i].whaleLabel)
    {
      forall j | 0 <= j < i ensures ToLower(ws[j].address) != ToLower(ws[i].address) {
        LowerCasedDistinct(j, i);
      }
      FirstMatchFindsOwn(ws, i);
    }
    LabelsNumbered();
  }

  /** An entry no earlier entry matches finds its own label. */
  lemma FirstMatchFindsOwn(ws: seq<WhaleAddress>, i: nat)
    requires i < |ws|
    requires forall j :: 0 <= j < i ==> ToLower(ws[j].address) != ToLower(ws[i].address)
    ensures LabelIn(ws, ws[i].address) == Some(ws[i].whaleLabel)
  {
    var found := FindWhale(ws, ToLower(ws[i].address));
    assert found.Some?;
    assert found.value == i;
  }

  lemma LabelsNumbered()
    ensures forall i :: 0 <= i < |WhaleAddressList| ==>
              WhaleAddressList[i].whaleLabel == "Whale " + Js.DecimalString(i + 1)
  {
    LabelsNumberedBelowTen();
    LabelsNumberedFromTen();
  }

  lemma LabelsNumberedBelowTen()
    ensures forall i :: 0 <= i < 9 ==> WhaleAddressList[i].whaleLabel == "Whale " + Js.DecimalString(i + 1)
  {
  }

  lemma LabelsNumberedFromTen()
    ensures forall i :: 9 <= i < 20 ==> WhaleAddressList[i].whaleLabel == "Whale " + Js.DecimalString(i + 1)
  {
  }
}
