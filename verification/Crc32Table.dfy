/**
 CRC-32 as section 8 of RFC 1952 defines it (reflected polynomial 0xEDB88320), and the
 constant table of drivers/scsi/swap/crc32.c, sixteen entries to a row.
 */
module Crc32Table {

  /** One bit of the reflected division. */
  function Bit(c: bv32): bv32 { if c & 1 == 1 then (c >> 1) ^ 0xEDB88320 else c >> 1 }

  function Bits8(c: bv32): bv32 { Bit(Bit(Bit(Bit(Bit(Bit(Bit(Bit(c)))))))) }

  method Row0(lo: bv8) returns (r: bv32)
    requires lo < 16
    ensures r == Bits8((lo | 0x00) as bv32)
  {
    r :=
      if lo == 0 then 0x00000000 else if lo == 1 then 0x77073096 else if lo == 2 then 0xee0e612c else if lo == 3 then 0x990951ba else
      if lo == 4 then 0x076dc419 else if lo == 5 then 0x706af48f else if lo == 6 then 0xe963a535 else if lo == 7 then 0x9e6495a3 else
      if lo == 8 then 0x0edb8832 else if lo == 9 then 0x79dcb8a4 else if lo == 10 then 0xe0d5e91e else if lo == 11 then 0x97d2d988 else
      if lo == 12 then 0x09b64c2b else if lo == 13 then 0x7eb17cbd else if lo == 14 then 0xe7b82d07 else 0x90bf1d91;
  }

  method Row1(lo: bv8) returns (r: bv32)
    requires lo < 16
    ensures r == Bits8((lo | 0x10) as bv32)
  {
    r :=
      if lo == 0 then 0x1db71064 else if lo == 1 then 0x6ab020f2 else if lo == 2 then 0xf3b97148 else if lo == 3 then 0x84be41de else
      if lo == 4 then 0x1adad47d else if lo == 5 then 0x6ddde4eb else if lo == 6 then 0xf4d4b551 else if lo == 7 then 0x83d385c7 else
      if lo == 8 then 0x136c9856 else if lo == 9 then 0x646ba8c0 else if lo == 10 then 0xfd62f97a else if lo == 11 then 0x8a65c9ec else
      if lo == 12 then 0x14015c4f else if lo == 13 then 0x63066cd9 else if lo == 14 then 0xfa0f3d63 else 0x8d080df5;
  }

  method Row2(lo: bv8) returns (r: bv32)
    requires lo < 16
    ensures r == Bits8((lo | 0x20) as bv32)
  {
    r :=
      if lo == 0 then 0x3b6e20c8 else if lo == 1 then 0x4c69105e else if lo == 2 then 0xd56041e4 else if lo == 3 then 0xa2677172 else
      if lo == 4 then 0x3c03e4d1 else if lo == 5 then 0x4b04d447 else if lo == 6 then 0xd20d85fd else if lo == 7 then 0xa50ab56b else
      if lo == 8 then 0x35b5a8fa else if lo == 9 then 0x42b2986c else if lo == 10 then 0xdbbbc9d6 else if lo == 11 then 0xacbcf940 else
      if lo == 12 then 0x32d86ce3 else if lo == 13 then 0x45df5c75 else if lo == 14 then 0xdcd60dcf else 0xabd13d59;
  }

  method Row3(lo: bv8) returns (r: bv32)
    requires lo < 16
    ensures r == Bits8((lo | 0x30) as bv32)
  {
    r :=
      if lo == 0 then 0x26d930ac else if lo == 1 then 0x51de003a else if lo == 2 then 0xc8d75180 else if lo == 3 then 0xbfd06116 else
      if lo == 4 then 0x21b4f4b5 else if lo == 5 then 0x56b3c423 else if lo == 6 then 0xcfba9599 else if lo == 7 then 0xb8bda50f else
      if lo == 8 then 0x2802b89e else if lo == 9 then 0x5f058808 else if lo == 10 then 0xc60cd9b2 else if lo == 11 then 0xb10be924 else
      if lo == 12 then 0x2f6f7c87 else if lo == 13 then 0x58684c11 else if lo == 14 then 0xc1611dab else 0xb6662d3d;
  }

  method Row4(lo: bv8) returns (r: bv32)
    requires lo < 16
    ensures r == Bits8((lo | 0x40) as bv32)
  {
    r :=
      if lo == 0 then 0x76dc4190 else if lo == 1 then 0x01db7106 else if lo == 2 then 0x98d220bc else if lo == 3 then 0xefd5102a else
      if lo == 4 then 0x71b18589 else if lo == 5 then 0x06b6b51f else if lo == 6 then 0x9fbfe4a5 else if lo == 7 then 0xe8b8d433 else
      if lo == 8 then 0x7807c9a2 else if lo == 9 then 0x0f00f934 else if lo == 10 then 0x9609a88e else if lo == 11 then 0xe10e9818 else
      if lo == 12 then 0x7f6a0dbb else if lo == 13 then 0x086d3d2d else if lo == 14 then 0x91646c97 else 0xe6635c01;
  }

  method Row5(lo: bv8) returns (r: bv32)
    requires lo < 16
    ensures r == Bits8((lo | 0x50) as bv32)
  {
    r :=
      if lo == 0 then 0x6b6b51f4 else if lo == 1 then 0x1c6c6162 else if lo == 2 then 0x856530d8 else if lo == 3 then 0xf262004e else
      if lo == 4 then 0x6c0695ed else if lo == 5 then 0x1b01a57b else if lo == 6 then 0x8208f4c1 else if lo == 7 then 0xf50fc457 else
      if lo == 8 then 0x65b0d9c6 else if lo == 9 then 0x12b7e950 else if lo == 10 then 0x8bbeb8ea else if lo == 11 then 0xfcb9887c else
      if lo == 12 then 0x62dd1ddf else if lo == 13 then 0x15da2d49 else if lo == 14 then 0x8cd37cf3 else 0xfbd44c65;
  }

  method Row6(lo: bv8) returns (r: bv32)
    requires lo < 16
    ensures r == Bits8((lo | 0x60) as bv32)
  {
    r :=
      if lo == 0 then 0x4db26158 else if lo == 1 then 0x3ab551ce else if lo == 2 then 0xa3bc0074 else if lo == 3 then 0xd4bb30e2 else
      if lo == 4 then 0x4adfa541 else if lo == 5 then 0x3dd895d7 else if lo == 6 then 0xa4d1c46d else if lo == 7 then 0xd3d6f4fb else
      if lo == 8 then 0x4369e96a else if lo == 9 then 0x346ed9fc else if lo == 10 then 0xad678846 else if lo == 11 then 0xda60b8d0 else
      if lo == 12 then 0x44042d73 else if lo == 13 then 0x33031de5 else if lo == 14 then 0xaa0a4c5f else 0xdd0d7cc9;
  }

  method Row7(lo: bv8) returns (r: bv32)
    requires lo < 16
    ensures r == Bits8((lo | 0x70) as bv32)
  {
    r :=
      if lo == 0 then 0x5005713c else if lo == 1 then 0x270241aa else if lo == 2 then 0xbe0b1010 else if lo == 3 then 0xc90c2086 else
      if lo == 4 then 0x5768b525 else if lo == 5 then 0x206f85b3 else if lo == 6 then 0xb966d409 else if lo == 7 then 0xce61e49f else
      if lo == 8 then 0x5edef90e else if lo == 9 then 0x29d9c998 else if lo == 10 then 0xb0d09822 else if lo == 11 then 0xc7d7a8b4 else
      if lo == 12 then 0x59b33d17 else if lo == 13 then 0x2eb40d81 else if lo == 14 then 0xb7bd5c3b else 0xc0ba6cad;
  }

  method Row8(lo: bv8) returns (r: bv32)
    requires lo < 16
    ensures r == Bits8((lo | 0x80) as bv32)
  {
    r :=
      if lo == 0 then 0xedb88320 else if lo == 1 then 0x9abfb3b6 else if lo == 2 then 0x03b6e20c else if lo == 3 then 0x74b1d29a else
      if lo == 4 then 0xead54739 else if lo == 5 then 0x9dd277af else if lo == 6 then 0x04db2615 else if lo == 7 then 0x73dc1683 else
      if lo == 8 then 0xe3630b12 else if lo == 9 then 0x94643b84 else if lo == 10 then 0x0d6d6a3e else if lo == 11 then 0x7a6a5aa8 else
      if lo == 12 then 0xe40ecf0b else if lo == 13 then 0x9309ff9d else if lo == 14 then 0x0a00ae27 else 0x7d079eb1;
  }

  method Row9(lo: bv8) returns (r: bv32)
    requires lo < 16
    ensures r == Bits8((lo | 0x90) as bv32)
  {
    r :=
      if lo == 0 then 0xf00f9344 else if lo == 1 then 0x8708a3d2 else if lo == 2 then 0x1e01f268 else if lo == 3 then 0x6906c2fe else
      if lo == 4 then 0xf762575d else if lo == 5 then 0x806567cb else if lo == 6 then 0x196c3671 else if lo == 7 then 0x6e6b06e7 else
      if lo == 8 then 0xfed41b76 else if lo == 9 then 0x89d32be0 else if lo == 10 then 0x10da7a5a else if lo == 11 then 0x67dd4acc else
      if lo == 12 then 0xf9b9df6f else if lo == 13 then 0x8ebeeff9 else if lo == 14 then 0x17b7be43 else 0x60b08ed5;
  }

  method RowA(lo: bv8) returns (r: bv32)
    requires lo < 16
    ensures r == Bits8((lo | 0xA0) as bv32)
  {
    r :=
      if lo == 0 then 0xd6d6a3e8 else if lo == 1 then 0xa1d1937e else if lo == 2 then 0x38d8c2c4 else if lo == 3 then 0x4fdff252 else
      if lo == 4 then 0xd1bb67f1 else if lo == 5 then 0xa6bc5767 else if lo == 6 then 0x3fb506dd else if lo == 7 then 0x48b2364b else
      if lo == 8 then 0xd80d2bda else if lo == 9 then 0xaf0a1b4c else if lo == 10 then 0x36034af6 else if lo == 11 then 0x41047a60 else
      if lo == 12 then 0xdf60efc3 else if lo == 13 then 0xa867df55 else if lo == 14 then 0x316e8eef else 0x4669be79;
  }

  method RowB(lo: bv8) returns (r: bv32)
    requires lo < 16
    ensures r == Bits8((lo | 0xB0) as bv32)
  {
    r :=
      if lo == 0 then 0xcb61b38c else if lo == 1 then 0xbc66831a else if lo == 2 then 0x256fd2a0 else if lo == 3 then 0x5268e236 else
      if lo == 4 then 0xcc0c7795 else if lo == 5 then 0xbb0b4703 else if lo == 6 then 0x220216b9 else if lo == 7 then 0x5505262f else
      if lo == 8 then 0xc5ba3bbe else if lo == 9 then 0xb2bd0b28 else if lo == 10 then 0x2bb45a92 else if lo == 11 then 0x5cb36a04 else
      if lo == 12 then 0xc2d7ffa7 else if lo == 13 then 0xb5d0cf31 else if lo == 14 then 0x2cd99e8b else 0x5bdeae1d;
  }

  method RowC(lo: bv8) returns (r: bv32)
    requires lo < 16
    ensures r == Bits8((lo | 0xC0) as bv32)
  {
    r :=
      if lo == 0 then 0x9b64c2b0 else if lo == 1 then 0xec63f226 else if lo == 2 then 0x756aa39c else if lo == 3 then 0x026d930a else
      if lo == 4 then 0x9c0906a9 else if lo == 5 then 0xeb0e363f else if lo == 6 then 0x72076785 else if lo == 7 then 0x05005713 else
      if lo == 8 then 0x95bf4a82 else if lo == 9 then 0xe2b87a14 else if lo == 10 then 0x7bb12bae else if lo == 11 then 0x0cb61b38 else
      if lo == 12 then 0x92d28e9b else if lo == 13 then 0xe5d5be0d else if lo == 14 then 0x7cdcefb7 else 0x0bdbdf21;
  }

  method RowD(lo: bv8) returns (r: bv32)
    requires lo < 16
    ensures r == Bits8((lo | 0xD0) as bv32)
  {
    r :=
      if lo == 0 then 0x86d3d2d4 else if lo == 1 then 0xf1d4e242 else if lo == 2 then 0x68ddb3f8 else if lo == 3 then 0x1fda836e else
      if lo == 4 then 0x81be16cd else if lo == 5 then 0xf6b9265b else if lo == 6 then 0x6fb077e1 else if lo == 7 then 0x18b74777 else
      if lo == 8 then 0x88085ae6 else if lo == 9 then 0xff0f6a70 else if lo == 10 then 0x66063bca else if lo == 11 then 0x11010b5c else
      if lo == 12 then 0x8f659eff else if lo == 13 then 0xf862ae69 else if lo == 14 then 0x616bffd3 else 0x166ccf45;
  }

  method RowE(lo: bv8) returns (r: bv32)
    requires lo < 16
    ensures r == Bits8((lo | 0xE0) as bv32)
  {
    r :=
      if lo == 0 then 0xa00ae278 else if lo == 1 then 0xd70dd2ee else if lo == 2 then 0x4e048354 else if lo == 3 then 0x3903b3c2 else
      if lo == 4 then 0xa7672661 else if lo == 5 then 0xd06016f7 else if lo == 6 then 0x4969474d else if lo == 7 then 0x3e6e77db else
      if lo == 8 then 0xaed16a4a else if lo == 9 then 0xd9d65adc else if lo == 10 then 0x40df0b66 else if lo == 11 then 0x37d83bf0 else
      if lo == 12 then 0xa9bcae53 else if lo == 13 then 0xdebb9ec5 else if lo == 14 then 0x47b2cf7f else 0x30b5ffe9;
  }

  method RowF(lo: bv8) returns (r: bv32)
    requires lo < 16
    ensures r == Bits8((lo | 0xF0) as bv32)
  {
    r :=
      if lo == 0 then 0xbdbdf21c else if lo == 1 then 0xcabac28a else if lo == 2 then 0x53b39330 else if lo == 3 then 0x24b4a3a6 else
      if lo == 4 then 0xbad03605 else if lo == 5 then 0xcdd70693 else if lo == 6 then 0x54de5729 else if lo == 7 then 0x23d967bf else
      if lo == 8 then 0xb3667a2e else if lo == 9 then 0xc4614ab8 else if lo == 10 then 0x5d681b02 else if lo == 11 then 0x2a6f2b94 else
      if lo == 12 then 0xb40bbe37 else if lo == 13 then 0xc30c8ea1 else if lo == 14 then 0x5a05df1b else 0x2d02ef8d;
  }

  /** crc32_table[i]: every entry is eight bitwise steps of its index. */
  method Table(i: bv8) returns (r: bv32)
    ensures r == Bits8(i as bv32)
  {
    if i >> 4 == 0 {
      r := Row0(i & 15);
    } else if i >> 4 == 1 {
      r := Row1(i & 15);
    } else if i >> 4 == 2 {
      r := Row2(i & 15);
    } else if i >> 4 == 3 {
      r := Row3(i & 15);
    } else if i >> 4 == 4 {
      r := Row4(i & 15);
    } else if i >> 4 == 5 {
      r := Row5(i & 15);
    } else if i >> 4 == 6 {
      r := Row6(i & 15);
    } else if i >> 4 == 7 {
      r := Row7(i & 15);
    } else if i >> 4 == 8 {
      r := Row8(i & 15);
    } else if i >> 4 == 9 {
      r := Row9(i & 15);
    } else if i >> 4 == 10 {
      r := RowA(i & 15);
    } else if i >> 4 == 11 {
      r := RowB(i & 15);
    } else if i >> 4 == 12 {
      r := RowC(i & 15);
    } else if i >> 4 == 13 {
      r := RowD(i & 15);
    } else if i >> 4 == 14 {
      r := RowE(i & 15);
    } else {
      r := RowF(i & 15);
    }
  }
}
