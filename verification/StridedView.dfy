/** The tensor view of a memory object: one row per rank, addressed through element strides. */
module StridedView {
  import opened Arithmetic
  import opened MnnvlState
  import opened MnnvlCluster

  /** Bytes per element of the dtypes the DLPack capsule supports. */
  predicate ElementSize(bytes: nat) {
    bytes == 1 || bytes == 2 || bytes == 4 || bytes == 8
  }

  function Columns(m: Memory, bytes: nat): nat
    requires bytes > 0
  {
    m.segmentSize / bytes
  }

  /** DLPack addressing with element strides [stride // bytes, 1]. */
  function ElementAddress(m: Memory, bytes: nat, i: nat, j: nat): nat
    requires bytes > 0
  {
    ProductIsNat(i, m.stride / bytes);
    ProductIsNat(i * (m.stride / bytes) + j, bytes);
    m.ptr + (i * (m.stride / bytes) + j) * bytes
  }

  lemma StrideDivides(stride: nat, bytes: nat)
    requires ElementSize(bytes) && stride % FABRIC_PAGE_SIZE == 0
    ensures stride / bytes * bytes == stride
  {
    var pages := stride / 0x2000_0000;
    assert stride == 0x2000_0000 * pages;
    if bytes == 2 {
      assert stride == 2 * (0x1000_0000 * pages);
    } else if bytes == 4 {
      assert stride == 4 * (0x800_0000 * pages);
    } else if bytes == 8 {
      assert stride == 8 * (0x400_0000 * pages);
    }
  }

  /** The integer division of the stride loses nothing: strides are whole fabric pages. */
  lemma AddressIsExact(m: Memory, bytes: nat, i: nat, j: nat)
    requires ElementSize(bytes) && m.stride % FABRIC_PAGE_SIZE == 0
    ensures ElementAddress(m, bytes, i, j) == m.ptr + i * m.stride + j * bytes
  {
    StrideDivides(m.stride, bytes);
    Regroup(i, m.stride / bytes, j, bytes);
  }

  lemma Regroup(i: nat, e: nat, j: nat, bytes: nat)
    ensures (i * e + j) * bytes == i * (e * bytes) + j * bytes
  {
  }

  lemma ColumnFits(size: nat, bytes: nat, j: nat)
    requires ElementSize(bytes) && j < size / bytes
    ensures j * bytes + bytes <= size
  {
  }

  /** The columns fill the segment: what is left over is smaller than one element. */
  lemma ColumnsFill(m: Memory, bytes: nat)
    requires bytes > 0
    ensures Columns(m, bytes) * bytes <= m.segmentSize < (Columns(m, bytes) + 1) * bytes
  {
  }

  /** Every element of row `i` lies inside the range mapped to the memory rank `i` created for this object. */
  lemma ElementInOwnSegment(st: RankState, objects: map<nat, Memory>, n: nat, opens: nat, open: nat,
                            bytes: nat, i: nat, j: nat)
    requires RankValid(st, objects, n, opens) && open in objects && i < n
    requires ElementSize(bytes) && j < Columns(objects[open], bytes)
    ensures var m := objects[open];
      var segment, address := m.ptr + i * m.stride, ElementAddress(m, bytes, i, j);
      && segment in st.mapped && st.mapped[segment].handle == Handle(i, open)
      && segment <= address && address + bytes <= segment + st.mapped[segment].size
  {
    var m := objects[open];
    assert ObjectValid(st, n, open, m);
    assert AllocationValid(st, n, m.ptr);
    var a := st.allocs[m.ptr];
    AddressIsExact(m, bytes, i, j);
    ColumnFits(m.segmentSize, bytes, j);
    assert SliceAt(a, i) == m.ptr + i * m.stride by { assert a.stride * i == i * a.stride; }
  }

  /** Distinct elements of a view occupy disjoint bytes. */
  lemma ElementsDisjoint(st: RankState, objects: map<nat, Memory>, n: nat, opens: nat, open: nat,
                         bytes: nat, i: nat, j: nat, k: nat, l: nat)
    requires RankValid(st, objects, n, opens) && open in objects && i < n && k < n && (i, j) != (k, l)
    requires ElementSize(bytes) && j < Columns(objects[open], bytes) && l < Columns(objects[open], bytes)
    ensures var m := objects[open];
      Disjoint(ElementAddress(m, bytes, i, j), bytes, ElementAddress(m, bytes, k, l), bytes)
  {
    var m := objects[open];
    assert ObjectValid(st, n, open, m);
    assert AllocationValid(st, n, m.ptr);
    AddressIsExact(m, bytes, i, j);
    AddressIsExact(m, bytes, k, l);
    if i == k {
      ColumnsApart(bytes, j, l);
    } else {
      ElementInOwnSegment(st, objects, n, opens, open, bytes, i, j);
      ElementInOwnSegment(st, objects, n, opens, open, bytes, k, l);
      SlicesDisjoint(st, n, m.ptr, i, m.ptr, k);
      var a := st.allocs[m.ptr];
      assert a.stride * i == i * a.stride && a.stride * k == k * a.stride;
    }
  }

  lemma ColumnsApart(bytes: nat, j: nat, l: nat)
    requires ElementSize(bytes) && j != l
    ensures j * bytes + bytes <= l * bytes || l * bytes + bytes <= j * bytes
  {
  }
}
