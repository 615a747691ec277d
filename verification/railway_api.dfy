/**
  The railway-data provider helpers (src/services/railwayApi.ts): code to
  name lookups with fallbacks, the fixed station list, a mock train search
  that echoes the requested stations, and a mock train schedule.
 */
module RailwayApi {
  import opened Base

  datatype IRStation = IRStation(code: string, name: string, stateCode: Option<string>, zoneCode: Option<string>)

  datatype IRTrain = IRTrain(
    number: string,
    name: string,
    fromCode: string,
    fromName: string,
    toCode: string,
    toName: string,
    departure: string,
    arrival: string,
    travelTime: string,
    distance: string,
    classes: seq<string>,
    days: seq<string>)

  datatype ScheduleStop = ScheduleStop(
    code: string,
    name: string,
    arrival: string,
    departure: string,
    halt: string,
    distance: string,
    day: int)

  datatype IRTrainSchedule = IRTrainSchedule(number: string, name: string, stops: seq<ScheduleStop>)

  /** The names the provider knows for eight major station codes. */
  const StationNames: map<string, string> := map[
    "NDLS" := "New Delhi",
    "CSMT" := "Mumbai CST",
    "MAS" := "Chennai Central",
    "HWH" := "Howrah Junction",
    "SBC" := "Bangalore City",
    "SC" := "Secunderabad Junction",
    "PUNE" := "Pune Junction",
    "ADI" := "Ahmedabad Junction"
  ]

  /** The names the provider knows for five train numbers. */
  const TrainNames: map<string, string> := map[
    "12301" := "Howrah Rajdhani Express",
    "12002" := "New Delhi Shatabdi Express",
    "12626" := "Kerala Express",
    "12951" := "Mumbai Rajdhani Express",
    "22691" := "Rajdhani Express"
  ]

  /** The display name of a station code: the known name, or the code itself
      when the code is not one of the eight known ones. */
  function GetStationName(code: string): (r: string)
    ensures code in StationNames ==> r == StationNames[code] && r != code
    ensures code !in StationNames ==> r == code
  {
    if code in StationNames && StationNames[code] != "" then StationNames[code] else code
  }

  /** The display name of a train number: the known name, or "Train "
      followed by the number. */
  function GetTrainName(number: string): (r: string)
    ensures number in TrainNames ==> r == TrainNames[number]
    ensures number !in TrainNames ==> r == "Train " + number
  {
    if number in TrainNames && TrainNames[number] != "" then TrainNames[number] else "Train " + number
  }

  /** Metro cities. */
  const MetroStations: seq<IRStation> := [
    IRStation("NDLS", "New Delhi", Some("DL"), Some("NR")),
    IRStation("CSMT", "Mumbai CST", Some("MH"), Some("CR")),
    IRStation("MAS", "Chennai Central", Some("TN"), Some("SR")),
    IRStation("HWH", "Howrah Junction", Some("WB"), Some("ER")),
    IRStation("SBC", "Bangalore City", Some("KA"), Some("SWR")),
    IRStation("SC", "Secunderabad Junction", Some("TS"), Some("SCR")),
    IRStation("PUNE", "Pune Junction", Some("MH"), Some("CR")),
    IRStation("ADI", "Ahmedabad Junction", Some("GJ"), Some("WR"))
  ]

  /** North India. */
  const NorthStations: seq<IRStation> := [
    IRStation("DLI", "Delhi Junction", Some("DL"), Some("NR")),
    IRStation("ANVT", "Anand Vihar Terminal", Some("DL"), Some("NR")),
    IRStation("NZM", "Hazrat Nizamuddin", Some("DL"), Some("NR")),
    IRStation("CNB", "Kanpur Central", Some("UP"), Some("NR")),
    IRStation("LKO", "Lucknow Charbagh", Some("UP"), Some("NER")),
    IRStation("AGC", "Agra Cantt", Some("UP"), Some("NCR")),
    IRStation("GWL", "Gwalior Junction", Some("MP"), Some("NCR")),
    IRStation("JHS", "Jhansi Junction", Some("UP"), Some("NCR")),
    IRStation("BPL", "Bhopal Junction", Some("MP"), Some("WCR")),
    IRStation("JBP", "Jabalpur Junction", Some("MP"), Some("WCR"))
  ]

  /** West India. */
  const WestStations: seq<IRStation> := [
    IRStation("BCT", "Mumbai Central", Some("MH"), Some("WR")),
    IRStation("LTT", "Lokmanya Tilak Terminus", Some("MH"), Some("CR")),
    IRStation("BDTS", "Bandra Terminus", Some("MH"), Some("WR")),
    IRStation("NGP", "Nagpur Junction", Some("MH"), Some("CR")),
    IRStation("ST", "Surat", Some("GJ"), Some("WR")),
    IRStation("BRC", "Vadodara Junction", Some("GJ"), Some("WR")),
    IRStation("JP", "Jaipur Junction", Some("RJ"), Some("NWR")),
    IRStation("JU", "Jodhpur Junction", Some("RJ"), Some("NWR")),
    IRStation("UDZ", "Udaipur City", Some("RJ"), Some("NWR"))
  ]

  /** South India. */
  const SouthStations: seq<IRStation> := [
    IRStation("KPD", "Katpadi Junction", Some("TN"), Some("SR")),
    IRStation("MDU", "Madurai Junction", Some("TN"), Some("SR")),
    IRStation("CBE", "Coimbatore Junction", Some("TN"), Some("SR")),
    IRStation("TCR", "Thrissur", Some("KL"), Some("SR")),
    IRStation("ERS", "Ernakulam Junction", Some("KL"), Some("SR")),
    IRStation("TVC", "Thiruvananthapuram Central", Some("KL"), Some("SR")),
    IRStation("MYS", "Mysore Junction", Some("KA"), Some("SWR")),
    IRStation("UBL", "Hubballi Junction", Some("KA"), Some("SWR")),
    IRStation("VSKP", "Visakhapatnam Junction", Some("AP"), Some("ECoR")),
    IRStation("BZA", "Vijayawada Junction", Some("AP"), Some("SCR"))
  ]

  /** East India. */
  const EastStations: seq<IRStation> := [
    IRStation("KOAA", "Kolkata", Some("WB"), Some("ER")),
    IRStation("SDAH", "Sealdah", Some("WB"), Some("ER")),
    IRStation("ASN", "Asansol Junction", Some("WB"), Some("ER")),
    IRStation("PURI", "Puri", Some("OR"), Some("ECoR")),
    IRStation("BBS", "Bhubaneswar", Some("OR"), Some("ECoR")),
    IRStation("TATA", "Tatanagar Junction", Some("JH"), Some("SER")),
    IRStation("RNC", "Ranchi Junction", Some("JH"), Some("SER")),
    IRStation("DHN", "Dhanbad Junction", Some("JH"), Some("ECR"))
  ]

  /** Northeast India. */
  const NortheastStations: seq<IRStation> := [
    IRStation("GHY", "Guwahati", Some("AS"), Some("NFR")),
    IRStation("DBRG", "Dibrugarh", Some("AS"), Some("NFR")),
    IRStation("AGTL", "Agartala", Some("TR"), Some("NFR"))
  ]

  /** Central India. */
  const CentralStations: seq<IRStation> := [
    IRStation("ET", "Itarsi Junction", Some("MP"), Some("WCR")),
    IRStation("BSP", "Bilaspur Junction", Some("CG"), Some("SECR")),
    IRStation("R", "Raipur Junction", Some("CG"), Some("SECR"))
  ]

  /** Hill stations. */
  const HillStations: seq<IRStation> := [
    IRStation("SML", "Shimla", Some("HP"), Some("NR")),
    IRStation("DLI", "Darjeeling", Some("WB"), Some("NFR")),
    IRStation("OOTC", "Ooty", Some("TN"), Some("SR"))
  ]

  /** The stations after the metro cities, group by group. */
  const RegionalStations: seq<IRStation> :=
    NorthStations + WestStations + SouthStations
    + EastStations + NortheastStations + CentralStations + HillStations

  /** The provider's station list. */
  const AllStations: seq<IRStation> := MetroStations + RegionalStations

  /** The metro stations carry the names the lookup gives their codes. */
  lemma MetroNamesAgree()
    ensures forall i | 0 <= i < |MetroStations| :: GetStationName(MetroStations[i].code) == MetroStations[i].name
  {
    forall i | 0 <= i < |MetroStations|
      ensures GetStationName(MetroStations[i].code) == MetroStations[i].name
    {
      assert MetroStations[i].code in StationNames;
    }
  }

  /** The station list. Its first eight entries are the stations the name
      lookup knows, under the same names. */
  function GetAllStations(): (r: seq<IRStation>)
    ensures |r| == 54
    ensures forall i | 0 <= i < 8 :: GetStationName(r[i].code) == r[i].name
  {
    MetroNamesAgree();
    AllStations
  }

  /** Station codes in the list are not unique: "DLI" names both Delhi
      Junction and Darjeeling, and a first-match lookup by code can only
      ever reach the first of them. */
  lemma StationCodesNotUnique()
    ensures AllStations[8].code == AllStations[52].code == "DLI"
    ensures AllStations[8].name == "Delhi Junction" && AllStations[52].name == "Darjeeling"
    ensures Find(AllStations, (s: IRStation) => s.code == "DLI") == Some(AllStations[8])
  {
    var p := (s: IRStation) => s.code == "DLI";
    assert forall i | 0 <= i < |MetroStations| :: !p(MetroStations[i]) by {
      assert !p(MetroStations[0]);
      assert !p(MetroStations[1]);
      assert !p(MetroStations[2]);
      assert !p(MetroStations[3]);
      assert !p(MetroStations[4]);
      assert !p(MetroStations[5]);
      assert !p(MetroStations[6]);
      assert !p(MetroStations[7]);
    }
    FindSkipsPrefix(MetroStations, RegionalStations, p);
    assert RegionalStations[0] == NorthStations[0];
    assert RegionalStations[44] == HillStations[1];
  }

  /** A station outside the eight known codes is named by its code alone. */
  lemma UnknownStationNamedByCode()
    ensures GetStationName(NorthStations[0].code) == "DLI"
    ensures GetStationName(HillStations[1].code) != HillStations[1].name
  {
  }

  /** The numbers of the five trains the mock search returns, in order. */
  const MockTrainNumbers: seq<string> := ["12301", "12002", "12626", "12951", "22691"]

  /** The trains the mock search returns, whatever is asked: the same five
      trains, each carrying the requested codes and the names looked up for
      them. */
  function SearchTrains(from: string, to: string, date: string): (r: seq<IRTrain>)
    ensures |r| == 5
    ensures forall i | 0 <= i < |r| :: r[i].number == MockTrainNumbers[i]
    ensures forall i | 0 <= i < |r| ::
      && r[i].fromCode == from && r[i].toCode == to
      && r[i].fromName == GetStationName(from) && r[i].toName == GetStationName(to)
    ensures forall i | 0 <= i < |r| :: r[i].name == GetTrainName(r[i].number)
  {
    var fromName, toName := GetStationName(from), GetStationName(to);
    var r := [
      IRTrain("12301", "Howrah Rajdhani Express", from, fromName, to, toName,
              "16:55", "09:55+1", "17h 00m", "1444 km",
              ["1A", "2A", "3A"], ["Mon", "Tue", "Wed", "Thu", "Fri", "Sat", "Sun"]),
      IRTrain("12002", "New Delhi Shatabdi Express", from, fromName, to, toName,
              "06:00", "14:05", "8h 05m", "448 km",
              ["CC", "EC"], ["Mon", "Tue", "Wed", "Thu", "Fri", "Sat"]),
      IRTrain("12626", "Kerala Express", from, fromName, to, toName,
              "11:45", "11:00+1", "23h 15m", "1687 km",
              ["1A", "2A", "3A", "SL"], ["Mon", "Tue", "Wed", "Thu", "Fri", "Sat", "Sun"]),
      IRTrain("12951", "Mumbai Rajdhani Express", from, fromName, to, toName,
              "16:00", "08:35+1", "16h 35m", "1384 km",
              ["1A", "2A", "3A"], ["Mon", "Tue", "Wed", "Thu", "Fri", "Sat", "Sun"]),
      IRTrain("22691", "Rajdhani Express", from, fromName, to, toName,
              "20:05", "07:40+1", "11h 35m", "846 km",
              ["1A", "2A", "3A"], ["Mon", "Tue", "Wed", "Thu", "Fri", "Sat", "Sun"])
    ];
    r
  }

  /** The search depends on its arguments only through the echoed station
      codes and names: two searches return the same trains in the same
      order, up to those four fields. In particular the date plays no part. */
  lemma SearchEchoesOnlyStations(f1: string, t1: string, d1: string, f2: string, t2: string, d2: string)
    ensures |SearchTrains(f1, t1, d1)| == |SearchTrains(f2, t2, d2)|
    ensures forall i | 0 <= i < |SearchTrains(f1, t1, d1)| ::
      SearchTrains(f1, t1, d1)[i]
        == SearchTrains(f2, t2, d2)[i].(fromCode := f1, fromName := GetStationName(f1),
                                        toCode := t1, toName := GetStationName(t1))
    ensures SearchTrains(f1, t1, d1) == SearchTrains(f1, t1, d2)
  {
  }

  /** The stops of the mock schedule, New Delhi to Howrah. */
  const ScheduleStops: seq<ScheduleStop> := [
    ScheduleStop("NDLS", "New Delhi", "Source", "16:55", "0m", "0", 1),
    ScheduleStop("GZB", "Ghaziabad", "17:28", "17:30", "2m", "19", 1),
    ScheduleStop("MB", "Moradabad", "19:28", "19:33", "5m", "164", 1),
    ScheduleStop("BE", "Bareilly", "20:28", "20:30", "2m", "230", 1),
    ScheduleStop("LKO", "Lucknow", "23:40", "23:50", "10m", "506", 1),
    ScheduleStop("ALD", "Allahabad Junction", "02:28", "02:33", "5m", "739", 2),
    ScheduleStop("MGS", "Mughal Sarai Junction", "04:07", "04:17", "10m", "856", 2),
    ScheduleStop("PNBE", "Patna Junction", "06:00", "06:05", "5m", "995", 2),
    ScheduleStop("ASN", "Asansol Junction", "08:53", "08:55", "2m", "1240", 2),
    ScheduleStop("HWH", "Howrah Junction", "09:55", "Destination", "0m", "1444", 2)
  ]

  /** The schedule of a train: it echoes the number, names the train by
      number, and lists the stops from the source station (arrival
      "Source") to the destination (departure "Destination"). */
  function GetTrainSchedule(number: string): (r: IRTrainSchedule)
    ensures r.number == number && r.name == GetTrainName(number)
    ensures |r.stops| >= 2
    ensures r.stops[0].arrival == "Source"
    ensures r.stops[|r.stops| - 1].departure == "Destination"
  {
    IRTrainSchedule(number, GetTrainName(number), ScheduleStops)
  }

  /** The distances along the mock schedule, read as numbers. */
  const ScheduleDistances: seq<nat> := [0, 19, 164, 230, 506, 739, 856, 995, 1240, 1444]

  lemma ScheduleDistancesRead()
    ensures forall i | 0 <= i < |ScheduleStops| ::
      IsDigits(ScheduleStops[i].distance) && ParseNat(ScheduleStops[i].distance) == ScheduleDistances[i]
  {
    forall i | 0 <= i < |ScheduleStops|
      ensures IsDigits(ScheduleStops[i].distance)
      ensures ParseNat(ScheduleStops[i].distance) == ScheduleDistances[i]
    {
      ParseNatShort(ScheduleStops[i].distance);
    }
  }

  /** Along the schedule, the distance from the source and the day of travel
      never decrease. */
  lemma ScheduleNonDecreasing(number: string)
    ensures forall i, j | 0 <= i <= j < |GetTrainSchedule(number).stops| ::
      var stops := GetTrainSchedule(number).stops;
      && IsDigits(stops[i].distance) && IsDigits(stops[j].distance)
      && ParseNat(stops[i].distance) <= ParseNat(stops[j].distance)
      && stops[i].day <= stops[j].day
  {
    ScheduleDistancesRead();
    SortedByFromAdjacent(ScheduleDistances, (n: nat) => n);
    SortedByFromAdjacent(ScheduleStops, (st: ScheduleStop) => st.day);
  }
}
