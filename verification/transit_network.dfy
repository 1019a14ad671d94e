/** The static transit line catalog of src/utils/transitNetwork.ts: the line
    record, the option identifiers, the well-formedness the metrics engine
    relies on, and the Casablanca catalog itself. */
module TransitNetwork {
  import opened Geometry

  /** `PublicOptionId`: one identifier per public transport option. */
  datatype PublicOptionId =
    | T1
    | T2
    | T3
    | T4
    | Bw1
    | Bw2
    | BusLissasfaNationsUnies
    | BusHayHassaniAinSebaa
    | BusSidiMoumenOulfa

  /** The vehicle type of a line. */
  datatype Mode = Tramway | Busway | Bus

  /** `TransitLine`: one catalog entry. Fares, speeds and headways are plain
      JavaScript numbers in the source, hence `real`. */
  datatype TransitLine = TransitLine(
    id: PublicOptionId,
    mode: Mode,
    lineLabel: string,
    fareMad: real,
    averageSpeedKmh: real,
    headwayMinutes: real,
    path: seq<Point>)

  /** What the metrics engine needs of a line: a path with at least one
      segment, and a positive speed to divide by. */
  predicate Routable(line: TransitLine)
  {
    |line.path| >= 2 && line.averageSpeedKmh > 0.0
  }

  /** Every line of `catalog` is routable. */
  predicate AllRoutable(catalog: seq<TransitLine>)
  {
    forall i :: 0 <= i < |catalog| ==> Routable(catalog[i])
  }

  /** The invariants every catalog entry is built with. */
  predicate ValidLine(line: TransitLine)
  {
    && Routable(line)
    && line.headwayMinutes > 0.0
    && line.fareMad > 0.0
  }

  /** The identifiers of a catalog, in catalog order. */
  function Ids(catalog: seq<TransitLine>): (ids: seq<PublicOptionId>)
    ensures |ids| == |catalog|
    ensures forall i :: 0 <= i < |catalog| ==> ids[i] == catalog[i].id
  {
    seq(|catalog|, i requires 0 <= i < |catalog| => catalog[i].id)
  }

  /** The identifiers of a catalog, as a set. */
  function IdSet(catalog: seq<TransitLine>): set<PublicOptionId>
  {
    if |catalog| == 0 then {} else IdSet(catalog[..|catalog| - 1]) + {catalog[|catalog| - 1].id}
  }

  /** `IdSet` holds exactly the identifiers `Ids` lists. */
  lemma {:induction false} IdSetMembers(catalog: seq<TransitLine>)
    ensures forall id :: id in IdSet(catalog) <==> id in Ids(catalog)
    decreases |catalog|
  {
    if |catalog| > 0 {
      var n := |catalog| - 1;
      IdSetMembers(catalog[..n]);
      assert Ids(catalog) == Ids(catalog[..n]) + [catalog[n].id];
    }
  }

  /** With distinct identifiers there are as many identifiers as lines. */
  lemma {:induction false} DistinctIdSetSize(catalog: seq<TransitLine>)
    requires DistinctIds(catalog)
    ensures |IdSet(catalog)| == |catalog|
    decreases |catalog|
  {
    if |catalog| > 0 {
      var n := |catalog| - 1;
      var front := catalog[..n];
      assert DistinctIds(front);
      DistinctIdSetSize(front);
      IdSetMembers(front);
      assert catalog[n].id !in Ids(front);
    }
  }

  /** No identifier occurs twice. */
  predicate DistinctIds(catalog: seq<TransitLine>)
  {
    forall i, j :: 0 <= i < j < |catalog| ==> catalog[i].id != catalog[j].id
  }

  /** Every option identifier has a line. */
  predicate CoversAllIds(catalog: seq<TransitLine>)
  {
    forall id: PublicOptionId :: id in Ids(catalog)
  }

  /** A catalog the metrics engine can turn into a total record keyed by
      `PublicOptionId`. */
  predicate ValidCatalog(catalog: seq<TransitLine>)
  {
    && (forall i :: 0 <= i < |catalog| ==> ValidLine(catalog[i]))
    && DistinctIds(catalog)
    && CoversAllIds(catalog)
  }

  /** `TRANSIT_LINES`: approximate Casablanca tramway, busway and bus
      corridors. There are nine lines, one per option in declaration order,
      and each has a path of at least two points and a positive speed,
      headway and fare. */
  function TransitLines(): (lines: seq<TransitLine>)
    ensures |lines| == 9
    ensures forall i :: 0 <= i < |lines| ==> ValidLine(lines[i])
    ensures Ids(lines)
         == [T1, T2, T3, T4, Bw1, Bw2, BusLissasfaNationsUnies, BusHayHassaniAinSebaa, BusSidiMoumenOulfa]
  {
    [
      TransitLine(T1, Tramway, "T1 · Sidi Moumen ↔ Lissasfa", 6.0, 22.0, 7.0,
        [ Point(33.6052, -7.5262), Point(33.5968, -7.5545), Point(33.5886, -7.5742),
          Point(33.5736, -7.5892), Point(33.5585, -7.6114), Point(33.5448, -7.6348),
          Point(33.5301, -7.6524) ]),
      TransitLine(T2, Tramway, "T2 · Aïn Diab ↔ Sidi Bernoussi", 6.0, 21.0, 8.0,
        [ Point(33.5959, -7.7036), Point(33.5882, -7.6716), Point(33.5805, -7.6228),
          Point(33.5741, -7.5896), Point(33.5767, -7.5568), Point(33.5824, -7.5325),
          Point(33.5891, -7.5061) ]),
      TransitLine(T3, Tramway, "T3 · Port de Casablanca ↔ Hay Hassani", 6.0, 20.0, 9.0,
        [ Point(33.6088, -7.6166), Point(33.5917, -7.6019), Point(33.5752, -7.5893),
          Point(33.5586, -7.6014), Point(33.5439, -7.6157), Point(33.5315, -7.6327) ]),
      TransitLine(T4, Tramway, "T4 · Parc de la Ligue Arabe ↔ Mohammed V Airport axis", 6.0, 20.0, 9.0,
        [ Point(33.5916, -7.6189), Point(33.5814, -7.6044), Point(33.5702, -7.5896),
          Point(33.5572, -7.5798), Point(33.5432, -7.5713), Point(33.5287, -7.5646) ]),
      TransitLine(Bw1, Busway, "BW1 · Salmia ↔ Lissasfa", 6.0, 24.0, 8.0,
        [ Point(33.6062, -7.5295), Point(33.5921, -7.5532), Point(33.5784, -7.5796),
          Point(33.5658, -7.6062), Point(33.5537, -7.6297), Point(33.5388, -7.6525) ]),
      TransitLine(Bw2, Busway, "BW2 · Errahma ↔ Sidi Moumen", 6.0, 23.0, 9.0,
        [ Point(33.4865, -7.6604), Point(33.5174, -7.6468), Point(33.5442, -7.6261),
          Point(33.5669, -7.6029), Point(33.5846, -7.5755), Point(33.6002, -7.5462) ]),
      TransitLine(BusLissasfaNationsUnies, Bus, "Bus · Lissasfa ↔ Place des Nations Unies", 5.0, 17.0, 12.0,
        [ Point(33.5298, -7.6528), Point(33.5435, -7.6299), Point(33.5561, -7.6105),
          Point(33.5657, -7.6008), Point(33.5734, -7.5897) ]),
      TransitLine(BusHayHassaniAinSebaa, Bus, "Bus · Hay Hassani ↔ Aïn Sebaâ", 5.0, 16.0, 14.0,
        [ Point(33.5344, -7.6322), Point(33.5518, -7.6182), Point(33.5689, -7.6011),
          Point(33.5819, -7.5783), Point(33.5906, -7.5487), Point(33.6005, -7.5229) ]),
      TransitLine(BusSidiMoumenOulfa, Bus, "Bus · Sidi Moumen ↔ Oulfa", 5.0, 15.0, 15.0,
        [ Point(33.6055, -7.5263), Point(33.5927, -7.5531), Point(33.5798, -7.5764),
          Point(33.5653, -7.5962), Point(33.5508, -7.6161), Point(33.5364, -7.6357) ])
    ]
  }

  /** The shipped catalog meets every invariant: each path has at least two
      points, speeds, headways and fares are positive, and the identifiers are
      pairwise distinct and cover `PublicOptionId`. */
  lemma TransitLinesValid()
    ensures ValidCatalog(TransitLines())
  {
    var c := TransitLines();
    var ids := Ids(c);
    forall i, j | 0 <= i < j < |c|
      ensures c[i].id != c[j].id
    {
      assert ids[i] != ids[j];
    }
    forall id: PublicOptionId
      ensures id in ids
    {
      match id
      case T1 => assert ids[0] == id;
      case T2 => assert ids[1] == id;
      case T3 => assert ids[2] == id;
      case T4 => assert ids[3] == id;
      case Bw1 => assert ids[4] == id;
      case Bw2 => assert ids[5] == id;
      case BusLissasfaNationsUnies => assert ids[6] == id;
      case BusHayHassaniAinSebaa => assert ids[7] == id;
      case BusSidiMoumenOulfa => assert ids[8] == id;
    }
  }
}
